# crazy_dices game server, modelled in Dafny

This project models the rules engine of the crazy_dices board-game server (`server.js`), a
Socket.IO server. Players register under a client-chosen id, gather in rooms of at most five,
and race round a 48-cell circular track. They roll a die on their turn and use item dice from
their inventory. Cells grant items, move a player back, or hold them on the isolation cell
("무인도", cell 24). Whoever completes a lap first wins, and the room resets for a new game.

The server keeps all of its state in three global maps plus the free colour list: `rooms`,
`playersData`, `socketIdMap` and `availablePlayerColors`. Each handler updates them in place.
The model follows that split:

- `optional.dfy`: `Option`, for the values the server keeps as `null`/`undefined`.
- `items.dfy`: the item dice, one constructor per name the server knows, plus inventory removal.
- `track.dfy`: the arithmetic of a move on the 48-cell track, with JavaScript's truncating `%`
  written out as `JsRem`.
- `board.dfy`: the weighted catalogue of cell events, the weighted draw, and the layout loop of
  `start_game`.
- `entities.dfy`:
  - the player and room records and the whole state as a value;
  - the consistency invariant every handler keeps (`Consistent`);
  - the relation `Keeps`, satisfied by every gameplay step: nobody changes seat, room, colour or
    socket, and positions stay on the track.
- `rules.dfy`: the movement rule, the landing cascade, the reset after a game, and a turn of
  `roll_dice`, as functions on the state. The winners announced with `game_ended` are returned
  as a list.
- `catalog.dfy`: every case of `use_item_dice` and the eight `penaltyEvents`, as functions on
  the state. Every random draw of a use is a field of `Draws`.
- `lobby.dfy`: registration and its name rule, the colour allocator, and the room lifecycle
  (create, join, leave, disconnect and its grace-timer expiry, ready, start), as functions on
  the state.
- `server.dfy`: `class World`, whose fields are the four global structures. It has one method
  per handler, each updating the fields in place, and helper methods for the shared steps.
  Every method is proved to reach the state its specification function computes. The
  handler methods (`SetPlayerInfo`, `CreateRoom`, `JoinRoom`, `HandleLeave`, `LeaveRoom`,
  `Disconnect`, `Expire`, `PlayerReady`, `StartGame`, `RollDice`, `UseItemDice`) are also
  proved to keep `Consistent`; `CreateRoom` and `Expire` only under the provisos their rows name.

Random draws are parameters:

- `die` is the roll of `roll_dice`;
- `k` is the colour index;
- `rid` is the generated room id;
- `draws` are the 46 layout draws;
- `Draws` holds the dice, chance tests, list picks and penalty index of an item use.

The model follows the code as written, including:

- `penaltyEvents` has eight entries; the eighth moves the target 11 cells back.
- `player_ready` toggles the host's status too.
- `start_game` does not check that the room is still waiting.
- `create_room` keeps the creator's position, status effects and shield.
- `create_room` does not refuse a player who is already in a room.
- `create_room` overwrites a room whose generated id is already taken.

## Model

| member | source | states |
|---|---|---|
| Track.JsRem | server.js:167-168 | the remainder has the dividend's sign and lies strictly between -48 and 48, as JavaScript's `%` does |
| Track.NewPosition | server.js:167-168 | the new cell lies in (-48, 48), and is `(start + roll) mod 48` whenever the sum is non-negative |
| Track.NewLaps | server.js:170-176 | a forward step adds a lap exactly when it reaches or passes 48; a backward step never adds a lap and never goes below zero; a step that stays non-negative keeps the count |
| Track.BackwardStepMoves | server.js:838-845 | a backward step of 1..47 cells always changes the position, from any start cell |
| Track.MoveBackTwo | server.js:291-294 | the move-back cell's 2-step move from cells 1..47 lands exactly two cells lower |
| Track.ForwardWalk | server.js:160-195 | after any sequence of forward rolls of 1..48, the position is (start + sum) mod 48 and the laps grew by (start + sum) div 48 |
| Track.ForwardFromStart | server.js:160-195 | from cell 0 with no laps: position = sum mod 48, laps = sum div 48 |
| Board.CatalogTotal | server.js:113-129 | the weights of `boardEventTypes` sum to 118 |
| Board.Scan | server.js:150-156 | the scan of the weighted list always returns an index inside the list |
| Board.PickIndex | server.js:146-157 | the pick is always an entry of the list |
| Board.ScanFinds | server.js:150-156 | from any point of the scan, a draw below the total stops at the entry whose cumulative interval holds it; a draw past the total falls back to entry 0 |
| Board.PickIndexFinds | server.js:146-157 | a draw r in [0, total) picks the entry k with Prefix(k) <= r < Prefix(k+1), so each entry is picked for exactly `weight` draws; other draws fall back to entry 0 |
| Board.CatalogPickFinds | server.js:146-157 | over the cell catalogue, whose weights total 118, every draw in [0, 118) picks the entry whose running-sum interval holds it |
| Board.CatalogPickIsNotIsolation | server.js:113-129 | the catalogue never yields the isolation entry |
| Board.CellAt | server.js:250 | cell c holds `assignedBoardEvents[c - 1]` exactly when 1 <= c <= length; other cells hold no event |
| Board.LayoutUpTo | server.js:700-706 | the first n slots of the layout have length n |
| Board.BuildLayout | server.js:696-708 | the 47-step loop builds exactly `Layout(draws)`: slot i holds cell i+1, the isolation slot is fixed, every other slot takes the next draw |
| Board.LayoutCell | server.js:700-706 | one cell of a layout holds the isolation entry iff it is cell 24, and a catalogue event otherwise |
| Board.LayoutCells | server.js:696-708 | a layout has 47 cells; the isolation entry is at cell 24 and nowhere else; every other cell holds a catalogue event |
| Entities.PaletteDistinct | server.js:88-91 | the ten palette colours are distinct |
| Entities.Resolve | server.js:449-453 | a socket resolves to a player exactly when it maps to a non-empty, registered id |
| Entities.PlayersInRoom | server.js:81-84 | the result is the room's registered members; it is empty for an absent room |
| Entities.Registered | server.js:83 | the filter keeps exactly the members that are registered, and never lengthens the list |
| Entities.KeepsConsistent | server.js:22-27 | a gameplay step keeps the consistency invariant of the global maps |
| Items.ClaimItem | server.js:1243 | the claim item of either saving mode is neither grantable nor an upgrade result |
| Items.RemoveFirst | server.js:950-955 | a held item is removed once: the multiset loses exactly one copy of it and the length drops by one; an absent item leaves the inventory unchanged; nothing new appears |
| Items.TakeThenReturn | server.js:991-994 | removing an item and pushing it back keeps the inventory's multiset and length |
| Lobby.RoomOf | server.js:37-39 | an unregistered player has no room |
| Lobby.RoomOfListed | server.js:37-39 | in a consistent state, a player's room exists and lists the player |
| Lobby.NameAfter | server.js:410-415 | the stored name after a reconnection is either the stored one or the one sent |
| Lobby.NameRule | server.js:410-415 | a real name sent always wins; a real stored name is kept against a placeholder or empty name and stays real; applying the rule twice is applying it once |
| Lobby.Refilled | server.js:97-101 | the list drawn from is never empty, and is the free list itself when that is not empty |
| Lobby.TakeColor | server.js:96-106 | the draw takes one colour out of the refilled list |
| Lobby.TakeColorKeeps | server.js:96-106 | the colour drawn is a palette colour that is no longer free; the free list loses exactly it and stays a list of distinct palette colours |
| Lobby.NewPlayer | server.js:384-402 | a new record is a guest in the lobby, in no room, on the track |
| Lobby.Register | server.js:369-415 | the socket maps to the id; a new id gets a fresh record with the drawn colour; a known id gets the new socket and the name rule; nobody else changes |
| Lobby.RegisterKeeps | server.js:379-402 | registration keeps the invariant, and the socket then resolves to the player |
| Lobby.NewRoom | server.js:456-465 | a new room lists only its host and has room for them |
| Lobby.CreateRoom | server.js:448-477 | an unknown requester changes nothing; otherwise the room `rid` holds only the requester as host, who becomes a ready host with an empty hand, no laps and no savings; nobody else changes |
| Lobby.CreateRoomKeeps | server.js:455-477 | creating a room under an unused id keeps the invariant |
| Lobby.JoinRefusal | server.js:490-536 | no refusal only when the requester is known, not in a room, and the room exists, has a free place and is waiting |
| Lobby.JoinRoom | server.js:490-536 | the refusal is the first failed test, in the handler's order; a refused join changes nothing |
| Lobby.JoinAdmits | server.js:500-518 | a join succeeds iff every test passes; the new state is then exact: the requester is appended to the members, the room stays within capacity, and the requester becomes a waiting participant of `rid` with an empty hand, no laps, last position 0, an idle saving bank, no shield and a zero boosted stack; every other record and room stays as it was |
| Lobby.JoinKeeps | server.js:500-518 | joining keeps the invariant, so no room ever exceeds `maxPlayers` |
| Lobby.Without | server.js:547 | the filter removes exactly the leaver, and shortens a list that held them |
| Lobby.LeftRoom | server.js:563-573 | the leaver's record is back on the track |
| Lobby.Returned | server.js:577-579 | the leaver's colour is free again, and nothing else joins the free list |
| Lobby.Leave | server.js:539-545 | a player outside an existing room changes nothing |
| Lobby.LeaveRoomEffect | server.js:546-579 | the leaver is reset and no longer a member; a leaving host is replaced by the first remaining member, who becomes host; the room is deleted exactly when its host left it empty; other rooms are untouched; the leaver's colour is returned to the free list, and the socket map is unchanged |
| Lobby.LeaveFrame | server.js:546-573 | a leave keeps the registered ids; a leaving host's successor only gains the host role, and every other record but the leaver's stays as it was |
| Lobby.LeaveKeeps | server.js:539-579 | leaving keeps the invariant |
| Lobby.LeaveBySocket | server.js:597-602 | `leave_room` from an unknown socket changes nothing; otherwise it is the leave of the socket's player |
| Lobby.Disconnect | server.js:605-645 | a socket with no registered player loses its mapping; nothing else changes |
| Lobby.Expire | server.js:617-633 | after the grace timer fires, the player's record and the socket's mapping are gone, the player's colour is free, and no free colour is lost |
| Lobby.ExpireEffect | server.js:621-632 | once the timer fires, the rooms are exactly those `handleLeaveRoom` leaves (host promoted, empty room deleted, other rooms untouched, as `LeaveRoomEffect` states), only the socket's mapping is dropped, the colour is returned after the leave, every other record is the one the leave left, and no room lists the player provided only their own room did |
| Lobby.ExpireKeeps | server.js:621-632 | the expiry keeps the invariant, provided only the player's own room listed them |
| Lobby.CanStart | server.js:668-669 | the start test holds iff every member is registered and ready or host, and there are at least two members |
| Lobby.MembersReady | server.js:668 | the `every` test over a member list, member by member |
| Lobby.Toggled | server.js:660 | the toggle always changes the status, and never to the lobby status |
| Lobby.PlayerReady | server.js:648-676 | readiness changes no room and no seat; only a known player can get a `canStart` answer |
| Lobby.ReadyToggles | server.js:658-674 | the new state is the requester's record with its status toggled, and nothing else; the host, and only the host, gets `canStart`, evaluated after the toggle; toggling twice restores the state |
| Lobby.StartGame | server.js:678-727 | starting changes no player and no seat; a refused start changes nothing |
| Lobby.StartGameEffect | server.js:689-715 | a start succeeds iff the requester is the host of an existing room that passes the start test; that room then plays from turn 0 on a 47-cell layout with the isolation cell at 24, its other fields unchanged, and every other room stays as it was |
| Rules.Moved | server.js:167-179 | a moved record keeps its seat, and stays on the track with non-negative laps |
| Rules.Move | server.js:160-195 | only the mover's record changes: the new cell is (from + roll) under JavaScript's remainder by 48, the laps follow the lap rule, and the last position is `from`; the result is a win iff the new laps are at least 1; the rooms do not change |
| Rules.ForwardMove | server.js:160-195 | a forward move from a cell in [0, 48) lands on (p + roll) mod 48, adds a lap iff p + roll >= 48, records p as the last position, and wins iff laps >= 1 |
| Rules.BackwardMove | server.js:173-175 | a backward move never adds a lap and never makes the count negative |
| Rules.Fresh | server.js:339-356 | a reset record keeps its seat and is back on the track |
| Rules.ResetPlayers | server.js:336-357 | the member loop resets exactly the listed members and leaves every other record as it was |
| Rules.Reset | server.js:328-360 | the room is waiting again, with turn 0 and no board; its members are reset, nobody else changes; it is a gameplay step |
| Rules.ResetClearsMembers | server.js:336-357 | after a reset every member is on cell 0 with no laps, items, effects, savings or shield; the host is ready and the others waiting |
| Rules.ResetIdempotent | server.js:328-360 | resetting twice is resetting once |
| Rules.Land | server.js:200-323 | at most the lander is announced, the registered ids do not change, and the rooms change only when a game ended |
| Rules.LandWithoutLap | server.js:200-323 | a lander with no completed lap is announced by no landing: the move-back cells only lower the position, so the rooms are unchanged and the lander still has no completed lap |
| Rules.LandKeeps | server.js:200-323 | landing is a gameplay step, and unless a game ended it touches nobody but the lander |
| Rules.LandWithoutEvent | server.js:205-213 | cell 0, a cell with no assigned event (such as -1) and a room with no board change nothing |
| Rules.LandOnIsolation | server.js:218-247 | on cell 24 a shielded player loses the shield and is not isolated; an unshielded one gets two turns of isolation unless already isolated; nothing else changes |
| Rules.LandOnGrant | server.js:285-289 | a grant cell appends exactly its item to the lander's inventory and changes nothing else |
| Rules.CascadeStep | server.js:291-306 | from any cell 1..47, one step of the move-back cascade lowers the position by exactly 2 (cell 1 goes to -1), records the cell left, and resolves the new cell |
| Rules.CascadeStops | server.js:200-307 | the cascade stops on cell 0, cell 24 and any cell that is not a move-back, with the lander in place and nobody else touched |
| Rules.AdvanceTurn | server.js:763 | the turn index becomes (i + 1) mod members, which stays in [0, members); no record and no other room changes |
| Rules.Accrued | server.js:803-812 | a running plain bank gains 1, a running boosted bank gains 2, and the flags stay as they were |
| Rules.Throw | server.js:790-799 | a modifier is consumed and the modified die is clamped to at least 1; without a modifier the die and the record are unchanged |
| Rules.PlayingRoom | server.js:737-744 | the player's room is returned iff it exists and is playing |
| Rules.RollDice | server.js:730-833 | a roll of a die in 1..6 is a gameplay step, and can announce only the roller |
| Rules.Turn | server.js:753-787 | a turn is a gameplay step that announces at most the roller |
| Rules.Play | server.js:790-832 | a thrown die is a gameplay step; the roller is announced exactly when the move by the modified die completes a lap; otherwise nobody is announced and the turn index becomes (i + 1) mod members |
| Rules.RollRejected | server.js:731-750 | a roll from an unknown socket, outside a game in progress or out of turn changes nothing |
| Rules.RollWhileIsolated | server.js:753-769 | an isolated roller's countdown drops by one (deleted at zero) and the turn index advances (i + 1) mod members; nothing else changes |
| Rules.RollWhileSkipping | server.js:772-787 | the same countdown and advance for the skip penalty |
| Rules.RollMoves | server.js:790-832 | the roller's record gets the accrual and moves by the modified die (at least 1) to the new cell, laps and last position; a win resets the room and announces the roller; otherwise the cell is resolved, the turn passes on as `AdvanceTurn`, nobody is announced, and the turn index becomes (i + 1) mod members |
| Catalog.Push | server.js:1586-1589 | pushing an item appends it to the inventory, as a gameplay step |
| Catalog.Take | server.js:950-955 | taking an item removes its first occurrence, as a gameplay step |
| Catalog.Accrue | server.js:1101-1109 | only the user's record changes, and only in its banks: a running plain stack gains 1, a running boosted stack gains 2, and the flags stay as they were |
| Catalog.Shield | server.js:1200-1219 | only the player's shield flag changes, to the value given |
| Catalog.Advance | server.js:965-989 | the mover is announced exactly when the move completes a lap, and the room is then reset; otherwise the new cell is resolved, the rooms are unchanged and nobody but the mover is touched |
| Catalog.Strike | server.js:996-1011 | a shielded target only loses its shield; an unshielded target makes exactly the `Advance` move; unless a game ended, nobody but the target is touched and the rooms are unchanged |
| Catalog.LowestIndex | server.js:857-859 | the index found is the first of the lowest position, as the head of a stable sort by position |
| Catalog.LowestRanked | server.js:856-860 | the last-placed player is a registered member standing no higher than any other; there is none only in an empty room |
| Catalog.SwapPositions | server.js:861-864 | the two players' positions are exchanged and nothing else changes; a player swapped with itself changes nothing |
| Catalog.ApplyPenalty | server.js:837-907 | only penalties 0 and 7 can announce anybody, and only the target: they are the `Advance` moves of 5 and 11 cells back; 2 keeps only the plain dice, 3 sets one skipped turn, 5 sets a modifier of -3, each changing only the target; 6 swaps the user and the target |
| Catalog.PushBack | server.js:1068-1086 | the push-back of penalties 0 and 7 always changes the position, so it is exactly the `Advance` move: a win resets the room, otherwise the new cell is resolved |
| Catalog.SendToIsolation | server.js:846-853 | penalty 1 is a gameplay step that never ends a game or announces anybody |
| Catalog.Only | server.js:854 | confiscation keeps every copy of the plain die and nothing else |
| Catalog.StartSaving | server.js:1235-1245 | starting a saving mode announces nothing |
| Catalog.Claim | server.js:1247-1267 | a claim announces at most the user |
| Catalog.BoostedFinish | server.js:1319-1334 | a win by the user resets the room, accrues the user's savings and is announced for the target; otherwise it is the target's cell, not the user's, that is resolved, then the accrual; unless that landing ends the game, the user's record is only the accrual of the record its move produced |
| Catalog.BoostedPlusUse | server.js:1293-1335 | the target is first struck back by the opponent's die, then the user moves forward by the own die and `BoostedFinish` follows; the announcements are the strike's then the finish's, and a winning move by the user is announced for the target |
| Catalog.BoostedMinusUse | server.js:1336-1379 | the user first moves by the own die, then the target is struck back from its original cell by the opponent's die, and `BoostedFinish` follows; a winning move by the user is announced for the target |
| Catalog.BoostedProtectionUse | server.js:1467-1513 | the user's shield is set, then the target is struck back by the die (a shield stops it), then the accrual; unless a game ended, the user ends shielded |
| Catalog.RecallUse | server.js:1112-1149 | a target already on its last position leaves the state alone: the die is pushed back, then the accrual; otherwise the target is sent back to its last position by `RecallMove` (`Advance` for the boosted die, through a shield; `Strike` for the plain one, which a shield stops), then the accrual |
| Catalog.RecallLandsOnLastPosition | server.js:1117-1122 | the recall move lands the target exactly on its last position, and records the cell it left as the new last position |
| Catalog.SelfMoveUse | server.js:1171-1199 | a failed chance test only accrues the savings; otherwise the user makes the `Advance` move by the die, then the accrual |
| Catalog.StrikeUse | server.js:990-1024 | the target is struck by the roll (`Strike`), then the user's savings accrue; the announcements are the strike's |
| Catalog.PenaltyUse | server.js:1057-1111 | the drawn penalty is applied (`ApplyPenalty`), then the user's savings accrue; the announcements are the penalty's |
| Catalog.GrantUse | server.js:1150-1170 | the drawn dice are appended to the user's inventory in order, then the user's savings accrue; nothing else changes and nothing is announced |
| Catalog.ProtectUse | server.js:1200-1219 | the shield is on afterwards and the savings accrued, whether or not it was already on |
| Catalog.TargetedUse | server.js:964-1590 | each targeted die reaches its own rule: 마이너스 strikes by 1, 저주 and 강화 저주 by the die, the recall dice `RecallUse`, the boosted plus, minus and protection dice their rules, the penalty die `PenaltyUse`; only the target is announced |
| Catalog.SelfUse | server.js:964-1590 | each self die reaches its own rule: the moving dice `SelfMoveUse`, the granting dice `GrantUse` with their draws, 보호 `ProtectUse`, the saving and claim dice their mode; 운명 and 강화 벌칙, which have no case, are handed back; at most the user is announced |
| Catalog.Dispatch | server.js:964-1590 | a die with an unacceptable target is handed back and nothing is announced; a targeted die (or the penalty die) with an acceptable target reaches `TargetedUse`, every other die `SelfUse`; only the user or the target is announced |
| Catalog.UseItemGate | server.js:908-955 | an unknown socket, a player outside a game in progress, or an item not held changes nothing; otherwise the item is removed and its case runs |
| Catalog.UseNotHeld | server.js:950-954 | using an item not held changes nothing |
| Catalog.UseItemKeeps | server.js:908-1593 | every use is a gameplay step that keeps the invariant, and announces only the user or the target |
| Catalog.RejectedTarget | server.js:990-995 | a refused target puts the item back at the end: same multiset and length of the inventory, nothing else changes, nothing is announced |
| Catalog.RecallHandedBack | server.js:1134-1137 | a recall die of either kind aimed at a target already on its last position is handed back at the end of the user's inventory; the user's savings accrue, nothing else changes and nobody is announced |
| Catalog.ShieldIntercepts | server.js:996-1011 | a shielded target of 마이너스, 저주 or 강화 저주 keeps its position and loses its shield; the item is spent and the user's savings accrue |
| Catalog.ProtectionSpent | server.js:1200-1219 | 보호의 주사위 is spent even when the shield is already on |
| Catalog.SavingStarts | server.js:1235-1245 | starting a mode is refused, and the die handed back, exactly when both modes run; otherwise the mode restarts at 0 and the claim item is added |
| Catalog.StartSavingEffect | server.js:1235-1245 | the state after the start-saving rule, in both cases |
| Catalog.ClaimRefused | server.js:1247-1252 | a claim with the mode off hands the claim item back and changes nothing else |
| Catalog.ClaimSettles | server.js:1253-1267 | a claim with the mode on leaves the mode off with stack 0, whatever the move and landing did; only the user can be announced |
| Catalog.ClaimActive | server.js:1253-1267 | a claim moves by the stack, switches the mode off, then resets or lands |
| Catalog.ClaimLandingKeepsBanks | server.js:200-323 | landing never touches the lander's savings, unless a win reset them to idle |
| Catalog.ConfiscationKeepsFate | server.js:854 | after penalty 2 the inventory holds only plain dice, exactly as many as before |
| Catalog.SwapWithLowest | server.js:856-875 | penalty 4 is exactly the swap of the target with the last-placed member (`SwapPositions`, which changes nothing else), and does nothing when that is the target; nobody is announced |
| Catalog.PenaltyIsolates | server.js:846-853 | penalty 1 puts even a shielded target on cell 24 with a fresh two-turn isolation; landing there spends the shield; nothing else in the state changes and nobody is announced |
| Server.World.constructor | server.js:22-27 | a fresh server has no players, no rooms, no socket mappings and the whole palette free, and is consistent |
| Server.World.DrawColor | server.js:96-106 | the in-place refill and splice return the colour `TakeColor` specifies and leave its list |
| Server.World.SetPlayerInfo | server.js:369-415 | the in-place update reaches `Lobby.Register` and keeps the invariant |
| Server.World.CreateRoom | server.js:448-487 | the in-place update reaches `Lobby.CreateRoom`, and keeps the invariant for an unused id |
| Server.World.JoinRoom | server.js:490-536 | the chain of refusals and the in-place join reach `Lobby.JoinRoom` and keep the invariant |
| Server.World.HandleLeave | server.js:539-594 | the in-place filter, promotion or deletion, reset and colour return reach `Lobby.Leave` and keep the invariant |
| Server.World.LeaveRoom | server.js:597-602 | reaches `Lobby.LeaveBySocket` and keeps the invariant |
| Server.World.Disconnect | server.js:605-645 | reaches `Lobby.Disconnect` and keeps the invariant |
| Server.World.Expire | server.js:617-633 | reaches `Lobby.Expire`, and keeps the invariant when only the player's own room listed them |
| Server.World.PlayerReady | server.js:648-676 | reaches `Lobby.PlayerReady` and keeps the invariant |
| Server.World.StartGame | server.js:678-727 | builds the layout with the loop, reaches `Lobby.StartGame`, and keeps the invariant |
| Server.World.MovePlayer | server.js:160-195 | the in-place position and lap update reaches `Rules.Move` |
| Server.World.ResetRoom | server.js:328-360 | the member loop reaches `Rules.Reset` |
| Server.World.ExecuteBoardEvent | server.js:200-323 | the recursive in-place resolution reaches `Rules.Land` |
| Server.World.AdvanceTurn | server.js:825 | reaches `Rules.AdvanceTurn` |
| Server.World.RollDice | server.js:730-833 | reaches `Rules.RollDice` and keeps the invariant |
| Server.World.TakeTurn | server.js:753-787 | reaches `Rules.Turn` |
| Server.World.Throw | server.js:790-832 | reaches `Rules.Play` |
| Server.World.UseItemDice | server.js:908-955 | the gate and the in-place removal, then the case, reach `Catalog.UseItem` and keep the invariant |

## Left out

- Notices: the `emit` calls, room-list and player-list broadcasts, logging and Socket.IO rooms
  (`socket.join`/`leave`) are not modelled. The winners of `game_ended` are returned as a list,
  and lobby refusals as a `Refusal`.
- Timing: the timing of the reconnection grace timer is not modelled. Its firing is the
  explicit operation `Lobby.Expire`, and the cancellation on re-registration is the caller's choice not to fire it.
- Lobby.ExpireKeeps: proved only when no room but the player's own lists them. `create_room`
  by a player already in a room leaves them listed in the old room, and the expiry then leaves
  an unregistered id in that room.
- Random draws: `Math.random` draws are parameters. The weighted pick takes an integer draw,
  the floor of the source's float draw; with integer weights the comparisons agree.
- Catalog.DrawsInRange: the chance tests of 확률 and 강화 확률 are a boolean draw, not the
  `< 0.2` / `< 0.35` float test.
- Dead wiring: `get_any_dice` has no effect on state and `select_dice_choice` is not modelled.
- Chat: `chat message` and `send_server_message` only emit, so they are not modelled.
- `request_room_list` only emits, so it is not modelled.
- The stray global `gotDebuffed = false` and the unused `e_isProtect` flag are not modelled:
  nothing reads them.
- Absent values: an absent or `null` name or player id is the empty string. A room id is
  assumed non-empty.
- Missing records: a member id with no record is skipped by the reset, the promotion and the
  start test. The source would throw there, or treat the member as not ready.
- Server.World.UseItemDice: after the gate and the in-place removal, installs the state that
  `Catalog.Dispatch` computes. It does not walk through each item case's in-place updates, so
  it does not capture their order of assignment.
- Integer widths: positions, laps and stacks are unbounded integers. The source's doubles stay
  far below 2^53 in play.
- `script.js`, the browser client, is not part of this model.
