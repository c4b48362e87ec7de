/**
 * Arithmetic of the 48-cell circular track: the position and lap update performed by
 * `updatePlayerPositionAndCheckWin` (server.js), with JavaScript's truncating `%`.
 */
module Track {

  /** Cells on the board, the start cell 0 included (`TOTAL_BOARD_CELLS`). */
  const TRACK_LENGTH: int := 48
  /** The fixed isolation ("jail") cell (`JAIL_CELL_INDEX`). */
  const ISOLATION_CELL: int := 24

  /**
   * JavaScript's `x % TOTAL_BOARD_CELLS`: truncated division, so the remainder has the sign
   * of the dividend (Dafny's `%` is Euclidean and never negative).
   */
  function JsRem(x: int): (r: int)
    ensures -TRACK_LENGTH < r < TRACK_LENGTH
    ensures x >= 0 ==> r >= 0
    ensures x <= 0 ==> r <= 0
  {
    if x >= 0 then x % TRACK_LENGTH else -((-x) % TRACK_LENGTH)
  }

  /** The truncated remainder differs from its dividend by a whole number of laps. */
  lemma JsRemCongruent(x: int)
    ensures (x - JsRem(x)) % TRACK_LENGTH == 0
  {
  }

  /** The cell reached from `start` by a signed step (`potentialNewPosition % TOTAL_BOARD_CELLS`). */
  function NewPosition(start: int, roll: int): (q: int)
    ensures -TRACK_LENGTH < q < TRACK_LENGTH
    ensures 0 <= start + roll ==> q == (start + roll) % TRACK_LENGTH
  {
    JsRem(start + roll)
  }

  /**
   * The lap count after the step: one more when a forward step reaches or passes 48, one
   * fewer (never below zero) when a backward step wraps below zero, unchanged otherwise.
   */
  function NewLaps(laps: int, start: int, roll: int): (l: int)
    ensures laps >= 0 ==> l >= 0
    ensures roll > 0 && start < TRACK_LENGTH ==> l == if start + roll >= TRACK_LENGTH then laps + 1 else laps
    ensures roll <= 0 ==> l <= laps || l == 0
    ensures roll <= 0 && start + roll >= 0 ==> l == laps
    ensures roll >= 0 ==> l >= laps
  {
    var potential := start + roll;
    if roll > 0 && potential >= TRACK_LENGTH && start < TRACK_LENGTH then laps + 1
    else if roll < 0 && NewPosition(start, roll) < start && potential < 0 then
      (if laps - 1 < 0 then 0 else laps - 1)
    else laps
  }

  /** A move wins as soon as the mover has completed a lap. */
  predicate IsWin(laps: int) {
    laps >= 1
  }

  /**
   * A backward step of fewer than 48 cells always changes the position, whatever the
   * start cell (the penalty moves of 5 and 11 cells rely on this).
   */
  lemma BackwardStepMoves(start: int, steps: int)
    requires 0 < steps < TRACK_LENGTH
    ensures NewPosition(start, -steps) != start
  {
    var r := NewPosition(start, -steps);
    JsRemCongruent(start - steps);
    assert (start - steps - r) % TRACK_LENGTH == 0;
  }

  /** The board's `move_back` step of 2 from a cell in 1..47 lands exactly two cells lower. */
  lemma MoveBackTwo(start: int)
    requires 1 <= start < TRACK_LENGTH
    ensures NewPosition(start, -2) == start - 2
  {
  }

  function Sum(rolls: seq<int>): int {
    if |rolls| == 0 then 0 else rolls[0] + Sum(rolls[1..])
  }

  lemma {:induction false} SumOfPositive(rolls: seq<int>)
    requires forall i :: 0 <= i < |rolls| ==> 0 < rolls[i]
    ensures Sum(rolls) >= 0
  {
    if |rolls| > 0 {
      SumOfPositive(rolls[1..]);
    }
  }

  /** Position and lap count after a sequence of rolls, each applied to the previous result. */
  function Walk(start: int, laps: int, rolls: seq<int>): (int, int)
    decreases |rolls|
  {
    if |rolls| == 0 then (start, laps)
    else Walk(NewPosition(start, rolls[0]), NewLaps(laps, start, rolls[0]), rolls[1..])
  }

  /**
   * Forward rolls of 1..48 cells from a cell on the board: the position is the running
   * total modulo 48 and the lap count grows by the number of whole laps in it.
   */
  lemma {:induction false} ForwardWalk(start: int, laps: int, rolls: seq<int>)
    requires 0 <= start < TRACK_LENGTH
    requires forall i :: 0 <= i < |rolls| ==> 0 < rolls[i] <= TRACK_LENGTH
    ensures Walk(start, laps, rolls) ==
      ((start + Sum(rolls)) % TRACK_LENGTH, laps + (start + Sum(rolls)) / TRACK_LENGTH)
    decreases |rolls|
  {
    if |rolls| > 0 {
      var r := rolls[0];
      var a := start + r;
      var q := if a >= TRACK_LENGTH then 1 else 0;
      var next := NewPosition(start, r);
      assert next == a - TRACK_LENGTH * q;
      assert NewLaps(laps, start, r) == laps + q;
      ForwardWalk(next, laps + q, rolls[1..]);
      var rest := Sum(rolls[1..]);
      SumOfPositive(rolls[1..]);
      assert start + Sum(rolls) == TRACK_LENGTH * q + (next + rest);
      ShiftByLaps(next + rest, q);
    }
  }

  lemma ShiftByLaps(a: int, q: int)
    requires a >= 0 && 0 <= q <= 1
    ensures (TRACK_LENGTH * q + a) % TRACK_LENGTH == a % TRACK_LENGTH
    ensures (TRACK_LENGTH * q + a) / TRACK_LENGTH == q + a / TRACK_LENGTH
  {
  }

  /** From the start of a game: cell 0, no laps. */
  lemma ForwardFromStart(rolls: seq<int>)
    requires forall i :: 0 <= i < |rolls| ==> 0 < rolls[i] <= TRACK_LENGTH
    ensures Walk(0, 0, rolls) == (Sum(rolls) % TRACK_LENGTH, Sum(rolls) / TRACK_LENGTH)
  {
    ForwardWalk(0, 0, rolls);
  }
}
