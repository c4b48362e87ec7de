/**
 * The board layout: the weighted catalogue of cell events (`boardEventTypes`), the weighted
 * draw (`getRandomWeightedEvent`) and the layout built at game start (`start_game`).
 */
module Board {
  import opened Optional
  import opened Items
  import opened Track

  /** What a cell of `room.assignedBoardEvents` holds. */
  datatype BoardEvent =
    | Grant(item: ItemName) // `get_dice`: the item is added to the lander's inventory
    | MoveBack              // 두 칸 뒤로 가기: `move_back` by MOVE_BACK_STEPS
    | AnyItem               // 원하는 주사위 받기: `get_any_dice`, a stub with no effect on state
    | Blank                 // 빈 칸: `empty`
    | Isolation             // 무인도: the fixed entry at the isolation cell

  const MOVE_BACK_STEPS: int := 2

  /** The events the weighted catalogue can hold: every event but the isolation entry. */
  type CatalogEvent = e: BoardEvent | !e.Isolation? witness Blank

  datatype Weighted = Weighted(event: CatalogEvent, weight: nat)

  /** `boardEventTypes`, in source order. */
  const CATALOG: seq<Weighted> := [
    Weighted(Grant(Plus), 9), Weighted(Grant(Minus), 9), Weighted(Grant(Protection), 9),
    Weighted(Grant(Curse), 9), Weighted(Grant(Chance), 9), Weighted(Grant(Lucky), 9),
    Weighted(Grant(Penalty), 9), Weighted(Grant(Saving), 7), Weighted(Grant(Recall), 7),
    Weighted(Grant(Upgrade), 9), Weighted(MoveBack, 4), Weighted(AnyItem, 3), Weighted(Blank, 25)
  ]

  /** Sum of the weights of the first k entries. */
  function Prefix(entries: seq<Weighted>, k: nat): int
    requires k <= |entries|
  {
    if k == 0 then 0 else Prefix(entries, k - 1) + entries[k - 1].weight
  }

  function TotalWeight(entries: seq<Weighted>): int {
    Prefix(entries, |entries|)
  }

  lemma CatalogTotal()
    ensures TotalWeight(CATALOG) == 118
  {
    assert Prefix(CATALOG, 4) == 36;
    assert Prefix(CATALOG, 8) == 70;
    assert Prefix(CATALOG, 12) == 93;
  }

  lemma {:induction false} PrefixMonotone(entries: seq<Weighted>, j: nat, k: nat)
    requires j <= k <= |entries|
    ensures Prefix(entries, j) <= Prefix(entries, k)
    decreases k - j
  {
    if j < k {
      PrefixMonotone(entries, j, k - 1);
    }
  }

  /**
   * The loop of `getRandomWeightedEvent` from entry i on, with `rest` the draw minus the
   * weights already passed: the first entry whose weight exceeds what is left is chosen,
   * and entry 0 is the fallback when the list is exhausted.
   */
  function Scan(entries: seq<Weighted>, i: nat, rest: int): (k: nat)
    requires i <= |entries| && |entries| > 0
    ensures k < |entries|
    decreases |entries| - i
  {
    if i == |entries| then 0
    else if rest < entries[i].weight then i
    else Scan(entries, i + 1, rest - entries[i].weight)
  }

  /** Index picked for an integer draw r (the source's float draw, floored). */
  function PickIndex(entries: seq<Weighted>, r: int): (k: nat)
    requires |entries| > 0
    ensures k < |entries|
  {
    Scan(entries, 0, r)
  }

  /**
   * The scan from entry i, reached with every earlier cumulative weight at most r, stops at
   * the entry whose cumulative interval holds r, or falls back to entry 0 when r is past
   * the total weight.
   */
  lemma {:induction false} ScanFinds(entries: seq<Weighted>, i: nat, rest: int, r: int)
    requires i <= |entries| && |entries| > 0
    requires rest == r - Prefix(entries, i) && Prefix(entries, i) <= r
    ensures var k := Scan(entries, i, rest);
            && (r < TotalWeight(entries) ==> i <= k && Prefix(entries, k) <= r < Prefix(entries, k + 1))
            && (r >= TotalWeight(entries) ==> k == 0)
    decreases |entries| - i
  {
    if i == |entries| {
    } else if rest < entries[i].weight {
      PrefixMonotone(entries, i + 1, |entries|);
    } else {
      ScanFinds(entries, i + 1, rest - entries[i].weight, r);
    }
  }

  /**
   * The weighted draw: a draw r in [0, total) picks the entry whose cumulative interval
   * [Prefix(k), Prefix(k + 1)) holds it, so each entry is picked for exactly `weight` of
   * the draws; a draw outside falls back to entry 0.
   */
  lemma PickIndexFinds(entries: seq<Weighted>, r: int)
    requires |entries| > 0
    ensures var k := PickIndex(entries, r);
            && (0 <= r < TotalWeight(entries) ==> Prefix(entries, k) <= r < Prefix(entries, k + 1))
            && (r < 0 || r >= TotalWeight(entries) ==> k == 0)
  {
    if r >= 0 {
      ScanFinds(entries, 0, r, r);
    }
  }

  /**
   * The cell-event draw over the catalogue: a draw in [0, 118), the range of
   * `Math.random() * totalWeight`, picks the entry whose running-sum interval holds it.
   */
  lemma CatalogPickFinds(r: int)
    requires 0 <= r < 118
    ensures var k := PickIndex(CATALOG, r);
            k < |CATALOG| && Prefix(CATALOG, k) <= r < Prefix(CATALOG, k + 1)
  {
    CatalogTotal();
    PickIndexFinds(CATALOG, r);
  }

  /** `getRandomWeightedEvent(entries)` for the draw r. */
  function Pick(entries: seq<Weighted>, r: int): BoardEvent
    requires |entries| > 0
  {
    entries[PickIndex(entries, r)].event
  }

  /** The event drawn from the catalogue is never the isolation entry. */
  lemma CatalogPickIsNotIsolation(r: int)
    ensures Pick(CATALOG, r) != Isolation
  {
  }

  /** The event of board cell `cell`: `assignedBoardEvents[cell - 1]`, absent outside the list. */
  function CellAt(events: seq<BoardEvent>, cell: int): (e: Option<BoardEvent>)
    ensures e.Some? <==> 1 <= cell <= |events|
    ensures e.Some? ==> e.value in events
  {
    if 1 <= cell <= |events| then Some(events[cell - 1]) else None
  }

  /** Cells 1..47 of the board, with the draw that decides each. */
  const LAYOUT_SIZE: int := TRACK_LENGTH - 1
  /** Position of the isolation cell in `assignedBoardEvents`. */
  const ISOLATION_SLOT: int := ISOLATION_CELL - 1

  /** The draw used for slot i: the isolation slot consumes none. */
  function DrawFor(i: nat): nat
    requires i < LAYOUT_SIZE && i != ISOLATION_SLOT
  {
    if i < ISOLATION_SLOT then i else i - 1
  }

  /** The event slot i of the layout receives from the draws. */
  function Slot(draws: seq<int>, i: nat): BoardEvent
    requires |draws| == LAYOUT_SIZE - 1 && i < LAYOUT_SIZE
  {
    if i == ISOLATION_SLOT then Isolation else Pick(CATALOG, draws[DrawFor(i)])
  }

  /** The first n slots of the layout. */
  function LayoutUpTo(draws: seq<int>, n: nat): (events: seq<BoardEvent>)
    requires |draws| == LAYOUT_SIZE - 1 && n <= LAYOUT_SIZE
    ensures |events| == n
  {
    if n == 0 then [] else LayoutUpTo(draws, n - 1) + [Slot(draws, n - 1)]
  }

  /** Slot i of every longer prefix holds the event of slot i. */
  lemma {:induction false} LayoutUpToAt(draws: seq<int>, n: nat, i: nat)
    requires |draws| == LAYOUT_SIZE - 1 && i < n <= LAYOUT_SIZE
    ensures LayoutUpTo(draws, n)[i] == Slot(draws, i)
  {
    if i < n - 1 {
      LayoutUpToAt(draws, n - 1, i);
    }
  }

  /** The layout that `start_game` produces from the draws, slot by slot. */
  function Layout(draws: seq<int>): (events: seq<BoardEvent>)
    requires |draws| == LAYOUT_SIZE - 1
  {
    LayoutUpTo(draws, LAYOUT_SIZE)
  }

  /**
   * The layout loop: slot i holds board cell i + 1; the isolation slot is fixed and every
   * other slot takes the next draw of the weighted pick.
   */
  method BuildLayout(draws: seq<int>) returns (events: seq<BoardEvent>)
    requires |draws| == LAYOUT_SIZE - 1
    ensures events == Layout(draws)
  {
    events := [];
    var i := 0;
    while i < LAYOUT_SIZE
      invariant 0 <= i <= LAYOUT_SIZE
      invariant events == LayoutUpTo(draws, i)
    {
      var e;
      if i + 1 == ISOLATION_CELL {
        e := Isolation;
      } else {
        e := Pick(CATALOG, draws[DrawFor(i)]);
      }
      assert e == Slot(draws, i);
      events := events + [e];
      i := i + 1;
    }
  }

  /** The cell holds one of the catalogue's events. */
  ghost predicate InCatalog(e: Option<BoardEvent>) {
    exists k :: 0 <= k < |CATALOG| && e == Some(CATALOG[k].event)
  }

  /** One cell of a layout: the isolation entry exactly at cell 24, a catalogue event elsewhere. */
  lemma LayoutCell(draws: seq<int>, cell: int)
    requires |draws| == LAYOUT_SIZE - 1 && 1 <= cell <= TRACK_LENGTH - 1
    ensures CellAt(Layout(draws), cell) == Some(Isolation) <==> cell == ISOLATION_CELL
    ensures cell != ISOLATION_CELL ==>
      InCatalog(CellAt(Layout(draws), cell))
  {
    var events := Layout(draws);
    LayoutUpToAt(draws, LAYOUT_SIZE, cell - 1);
    assert CellAt(events, cell) == Some(Slot(draws, cell - 1));
    if cell != ISOLATION_CELL {
      var r := draws[DrawFor(cell - 1)];
      CatalogPickIsNotIsolation(r);
      var k := PickIndex(CATALOG, r);
      assert CellAt(events, cell) == Some(CATALOG[k].event);
    }
  }

  /**
   * A layout has one event per board cell 1..47; the isolation entry sits at cell 24 and
   * nowhere else, and every other cell holds an event of the catalogue.
   */
  lemma LayoutCells(draws: seq<int>)
    requires |draws| == LAYOUT_SIZE - 1
    ensures |Layout(draws)| == TRACK_LENGTH - 1
    ensures forall cell :: 1 <= cell <= TRACK_LENGTH - 1 ==>
      (CellAt(Layout(draws), cell) == Some(Isolation) <==> cell == ISOLATION_CELL)
    ensures forall cell :: 1 <= cell <= TRACK_LENGTH - 1 && cell != ISOLATION_CELL ==>
      InCatalog(CellAt(Layout(draws), cell))
  {
    forall cell | 1 <= cell <= TRACK_LENGTH - 1 {
      LayoutCell(draws, cell);
    }
  }
}
