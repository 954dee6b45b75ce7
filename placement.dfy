/** Where a ship can go: can_place_vertical_ship / can_place_horizontal_ship,
    get_max_ship_length_*, and the search problem's actions and result as functions. */
module Placement {
  import opened Cells
  import opened Waters
  import opened Pieces

  /** The counter of the line a ship of orientation o starting at (r, c) runs along:
      row_values[r] for a horizontal ship, col_values[c] for a vertical one. */
  function LineCount(b: BoardData, o: Orientation, r: int, c: int): int
    requires InGrid((r, c))
  {
    if o == Horizontal then b.rows[r] else b.cols[c]
  }

  /** The counter of the line crossing the ship at q: col_values[q.1] for a horizontal
      ship, row_values[q.0] for a vertical one. */
  function CrossCount(b: BoardData, o: Orientation, q: Coord): int
    requires InGrid(q)
  {
    if o == Horizontal then b.cols[q.1] else b.rows[q.0]
  }

  /** One cell of the loop of can_place_*_ship passes: it is free, its crossing line
      still wants a ship cell, and no adjacent value is a ship piece. */
  predicate CellOk(b: BoardData, o: Orientation, q: Coord) {
    IsFree(b.matrix, q) && CrossCount(b, o, q) >= 1 && NoShipAround(b.matrix, q)
  }

  /** can_place_*_ship(r, c, len): the line's counter admits len cells, and every cell of
      the ship passes CellOk. */
  predicate CanPlace(b: BoardData, o: Orientation, r: int, c: int, len: int)
    requires InGrid((r, c))
  {
    len <= LineCount(b, o, r, c) && forall k :: 0 <= k < len ==> CellOk(b, o, CellAt(o, r, c, k))
  }

  /** What can_place_*_ship promises, stated on the board: the counters admit the ship,
      every cell is on the board and unknown, and no on-board neighbour of any cell of
      the ship holds a piece. */
  lemma CanPlaceMeaning(b: BoardData, o: Orientation, r: int, c: int, len: int)
    requires InGrid((r, c))
    ensures CanPlace(b, o, r, c, len) <==>
      && len <= LineCount(b, o, r, c)
      && (forall k :: 0 <= k < len ==>
            && InGrid(CellAt(o, r, c, k))
            && At(b.matrix, CellAt(o, r, c, k)) == Unknown
            && CrossCount(b, o, CellAt(o, r, c, k)) >= 1)
      && (forall k, q :: 0 <= k < len && InGrid(q) && IsNeighbour(CellAt(o, r, c, k), q) ==>
            !IsShip(At(b.matrix, q)))
  {
    forall k | 0 <= k < len {
      NoShipAroundMeaning(b.matrix, CellAt(o, r, c, k));
    }
  }

  /** A ship that can be placed lies on the board and on free cells with no ship around
      them, so inserting it keeps free_positions exact. */
  lemma CanPlaceClear(b: BoardData, o: Orientation, r: int, c: int, len: int)
    requires InGrid((r, c)) && 1 <= len <= 4 && CanPlace(b, o, r, c, len)
    ensures ShipFits(o, r, c, len) && SpanClear(b.matrix, o, r, c, len)
  {
    CanPlaceMeaning(b, o, r, c, len);
    assert CellOk(b, o, CellAt(o, r, c, len - 1));
  }

  // ---- get_max_ship_length_* ----

  /** max(size for size, count in ships.items() if count > 0); None where the source's
      max() of nothing raises ValueError. */
  function Largest(b: BoardData): (l: Option<int>)
    ensures l.Some? ==> 1 <= l.value <= 4 && b.ships[l.value] > 0
    ensures l.Some? ==> forall k :: l.value < k <= 4 ==> b.ships[k] <= 0
    ensures l.None? <==> forall k :: 1 <= k <= 4 ==> b.ships[k] <= 0
  {
    if b.ships[4] > 0 then Some(4)
    else if b.ships[3] > 0 then Some(3)
    else if b.ships[2] > 0 then Some(2)
    else if b.ships[1] > 0 then Some(1)
    else None
  }

  /** The number of cells from offset k on, up to offset bound, that pass CellOk in a
      row: the count get_max_ship_length_* builds before its first break. */
  function RunFrom(b: BoardData, o: Orientation, r: int, c: int, k: nat, bound: nat): nat
    decreases bound - k
  {
    if k >= bound || !CellOk(b, o, CellAt(o, r, c, k)) then 0
    else 1 + RunFrom(b, o, r, c, k + 1, bound)
  }

  /** RunFrom counts the longest prefix of passing cells, never past bound. */
  lemma {:induction false} RunFromMeaning(b: BoardData, o: Orientation, r: int, c: int, k: nat, bound: nat)
    ensures var n := RunFrom(b, o, r, c, k, bound);
      && (n == 0 || k + n <= bound)
      && (forall i :: k <= i < k + n ==> CellOk(b, o, CellAt(o, r, c, i)))
      && (k + n < bound ==> !CellOk(b, o, CellAt(o, r, c, k + n)))
    decreases bound - k
  {
    if k < bound && CellOk(b, o, CellAt(o, r, c, k)) {
      RunFromMeaning(b, o, r, c, k + 1, bound);
    }
  }

  /** How far the loop of get_max_ship_length_* may go: `range(limit)` horizontally,
      but `range(4)` vertically whatever the largest remaining ship. */
  function Bound(o: Orientation, limit: int): int {
    if o == Horizontal then limit else 4
  }

  /** get_max_ship_length_horizontal / _vertical: min(the run of passing cells, the line's
      counter); None where max() raises. */
  function MaxShipLength(b: BoardData, o: Orientation, r: int, c: int): Option<int>
    requires InGrid((r, c))
  {
    match Largest(b)
    case None => None
    case Some(limit) =>
      var n := RunFrom(b, o, r, c, 0, Bound(o, limit));
      Some(if n <= LineCount(b, o, r, c) then n else LineCount(b, o, r, c))
  }

  /** The length get_max_ship_length_* reports is exactly the longest ship (within the
      loop's bound) that can_place_*_ship accepts at that cell. */
  lemma MaxShipLengthMeaning(b: BoardData, o: Orientation, r: int, c: int, len: int)
    requires InGrid((r, c)) && Largest(b).Some? && 0 <= len <= Bound(o, Largest(b).value)
    ensures CanPlace(b, o, r, c, len) <==> len <= MaxShipLength(b, o, r, c).value
  {
    RunFromMeaning(b, o, r, c, 0, Bound(o, Largest(b).value));
    if CanPlace(b, o, r, c, len) {
      RunCovers(b, o, r, c, 0, Bound(o, Largest(b).value), len);
    }
  }

  /** A stretch of passing cells up to len is all counted. */
  lemma {:induction false} RunCovers(b: BoardData, o: Orientation, r: int, c: int, k: nat, bound: nat, len: int)
    requires k <= len <= bound
    requires forall i :: k <= i < len ==> CellOk(b, o, CellAt(o, r, c, i))
    ensures RunFrom(b, o, r, c, k, bound) >= len - k
    decreases bound - k
  {
    if k < len {
      RunCovers(b, o, r, c, k + 1, bound, len);
    }
  }

  /** get_max_ship_length_vertical as its `limit` evidently intends, and as the
      horizontal query does: the loop bounded by the largest remaining ship. */
  function MaxShipLengthWithin(b: BoardData, o: Orientation, r: int, c: int): Option<int>
    requires InGrid((r, c))
  {
    match Largest(b)
    case None => None
    case Some(limit) =>
      var n := RunFrom(b, o, r, c, 0, limit);
      Some(if n <= LineCount(b, o, r, c) then n else LineCount(b, o, r, c))
  }

  /** The bounded query never reports a ship longer than the largest one left, agrees
      with get_max_ship_length_horizontal, and reports exactly the longest ship up to that
      length that can_place_*_ship accepts. */
  lemma MaxShipLengthWithinMeaning(b: BoardData, o: Orientation, r: int, c: int)
    requires InGrid((r, c)) && Largest(b).Some?
    ensures MaxShipLengthWithin(b, o, r, c).value <= Largest(b).value
    ensures o == Horizontal ==> MaxShipLengthWithin(b, o, r, c) == MaxShipLength(b, o, r, c)
    ensures forall len :: 0 <= len <= Largest(b).value ==>
      (CanPlace(b, o, r, c, len) <==> len <= MaxShipLengthWithin(b, o, r, c).value)
  {
    var limit := Largest(b).value;
    RunFromMeaning(b, o, r, c, 0, limit);
    forall len | 0 <= len <= limit && CanPlace(b, o, r, c, len)
      ensures len <= MaxShipLengthWithin(b, o, r, c).value
    {
      RunCovers(b, o, r, c, 0, limit, len);
    }
  }

  /** The vertical query may report a ship longer than any still to place: with only
      destroyers left and an empty column, it still reports 4. */
  lemma VerticalBoundQuirk(b: BoardData)
    requires b.ships == map[1 := 0, 2 := 1, 3 := 0, 4 := 0]
    requires forall q :: InGrid(q) ==> At(b.matrix, q) == Unknown
    requires forall i :: 0 <= i < 10 ==> b.rows[i] == 4 && b.cols[i] == 4
    ensures MaxShipLength(b, Vertical, 0, 0) == Some(4)
    ensures MaxShipLength(b, Horizontal, 0, 0) == Some(2)
  {
    forall k | 0 <= k < 4 ensures CellOk(b, Vertical, CellAt(Vertical, 0, 0, k)) {
      NoShipAroundMeaning(b.matrix, CellAt(Vertical, 0, 0, k));
    }
    forall k | 0 <= k < 2 ensures CellOk(b, Horizontal, CellAt(Horizontal, 0, 0, k)) {
      NoShipAroundMeaning(b.matrix, CellAt(Horizontal, 0, 0, k));
    }
    RunFromMeaning(b, Vertical, 0, 0, 0, 4);
    RunFromMeaning(b, Horizontal, 0, 0, 0, 2);
  }

  // ---- the search problem ----

  /** An action of the search problem: place a ship of length len with its first cell at
      pos. */
  datatype Action = Action(o: Orientation, pos: Coord, len: int)

  /** sum(is_free_position(...) for ...) over the cells cs. */
  function CountFree(m: Matrix, cs: seq<Coord>): (n: nat)
    ensures n <= |cs|
  {
    if cs == [] then 0 else (if IsFree(m, cs[0]) then 1 else 0) + CountFree(m, cs[1..])
  }

  /** The values of the cells cs, in order. */
  function Values(m: Matrix, cs: seq<Coord>): (vs: seq<Cell>)
    requires forall q :: q in cs ==> InGrid(q)
    ensures |vs| == |cs| && forall k :: 0 <= k < |cs| ==> vs[k] == At(m, cs[k])
  {
    seq(|cs|, k requires 0 <= k < |cs| => At(m, cs[k]))
  }

  /** Counting the free cells of a list of on-board cells counts its unknown values. */
  lemma {:induction false} CountFreeValues(m: Matrix, cs: seq<Coord>)
    requires forall q :: q in cs ==> InGrid(q)
    ensures CountFree(m, cs) == Unknowns(Values(m, cs))
    decreases |cs|
  {
    if cs != [] {
      assert Values(m, cs)[1..] == Values(m, cs[1..]);
      CountFreeValues(m, cs[1..]);
    }
  }

  /** The free-cell sums of actions count the unknown cells of row i and of column i. */
  lemma CountFreeLines(m: Matrix, i: int)
    requires 0 <= i < 10
    ensures CountFree(m, RowCoords(i)) == Unknowns(m[i])
    ensures CountFree(m, ColCoords(i)) == Unknowns(Column(m, i))
  {
    CountFreeValues(m, RowCoords(i));
    CountFreeValues(m, ColCoords(i));
    assert Values(m, RowCoords(i)) == m[i];
    assert Values(m, ColCoords(i)) == Column(m, i);
  }

  /** The early returns of actions, in the source's order: fewer free cells than pieces
      left; no ship left; every line's counter below the largest ship; a row with fewer
      free cells than its counter wants; or (checked only while row 0 is scanned, and so
      only if row 0's counter is not 0) such a column. */
  predicate Pruned(b: BoardData) {
    || b.free < b.piecesLeft
    || Largest(b).None?
    || ((forall j :: 0 <= j < 10 ==> b.cols[j] < Largest(b).value) &&
        (forall i :: 0 <= i < 10 ==> b.rows[i] < Largest(b).value))
    || (exists i :: 0 <= i < 10 && CountFree(b.matrix, RowCoords(i)) < b.rows[i])
    || (b.rows[0] != 0 && exists j :: 0 <= j < 10 && CountFree(b.matrix, ColCoords(j)) < b.cols[j])
  }

  /** The actions the inner loop appends for cell (r, c) when the largest ship has
      length len. */
  function CellActions(b: BoardData, len: int, r: int, c: int): seq<Action>
    requires InGrid((r, c))
  {
    if b.rows[r] == 0 || b.cols[c] == 0 || !IsFree(b.matrix, (r, c)) then []
    else if len == 1 then
      (if NoShipAround(b.matrix, (r, c)) then [Action(Vertical, (r, c), 1)] else [])
    else
      (if CanPlace(b, Vertical, r, c, len) then [Action(Vertical, (r, c), len)] else []) +
      (if CanPlace(b, Horizontal, r, c, len) then [Action(Horizontal, (r, c), len)] else [])
  }

  /** The actions of cells (r, 0) .. (r, n-1), in order. */
  function RowActions(b: BoardData, len: int, r: int, n: int): seq<Action>
    requires 0 <= r < 10 && 0 <= n <= 10
  {
    if n == 0 then [] else RowActions(b, len, r, n - 1) + CellActions(b, len, r, n - 1)
  }

  /** A row whose counter is 0 offers no action: actions skips it with `continue`. */
  lemma {:induction false} RowActionsSkipped(b: BoardData, len: int, r: int, n: int)
    requires 0 <= r < 10 && 0 <= n <= 10 && b.rows[r] == 0
    ensures RowActions(b, len, r, n) == []
  {
    if n > 0 {
      RowActionsSkipped(b, len, r, n - 1);
    }
  }

  /** The actions of rows 0 .. n-1, in order. */
  function RowsActions(b: BoardData, len: int, n: int): seq<Action>
    requires 0 <= n <= 10
  {
    if n == 0 then [] else RowsActions(b, len, n - 1) + RowActions(b, len, n - 1, 10)
  }

  /** actions(state): [] on an early return, otherwise every cell's actions, row by row. */
  function Actions(b: BoardData): seq<Action> {
    if Pruned(b) then [] else RowsActions(b, Largest(b).value, 10)
  }

  /** An action the loops of actions would append: a free cell whose row and column
      still want ships, and a ship of the largest remaining length that fits there (for
      length 1, a vertical one with no piece around it). */
  predicate Allowed(b: BoardData, a: Action)
    requires Largest(b).Some?
  {
    var len := Largest(b).value;
    && InGrid(a.pos) && a.len == len
    && b.rows[a.pos.0] != 0 && b.cols[a.pos.1] != 0 && IsFree(b.matrix, a.pos)
    && (if len == 1 then a.o == Vertical && NoShipAround(b.matrix, a.pos)
        else CanPlace(b, a.o, a.pos.0, a.pos.1, len))
  }

  lemma CellActionsMeaning(b: BoardData, len: int, r: int, c: int, a: Action)
    requires InGrid((r, c)) && Largest(b) == Some(len)
    ensures a in CellActions(b, len, r, c) <==> a.pos == (r, c) && Allowed(b, a)
  {
  }

  lemma {:induction false} RowActionsMeaning(b: BoardData, len: int, r: int, n: int, a: Action)
    requires 0 <= r < 10 && 0 <= n <= 10 && Largest(b) == Some(len)
    ensures a in RowActions(b, len, r, n) <==> a.pos.0 == r && 0 <= a.pos.1 < n && Allowed(b, a)
  {
    if n > 0 {
      RowActionsMeaning(b, len, r, n - 1, a);
      CellActionsMeaning(b, len, r, n - 1, a);
    }
  }

  lemma {:induction false} RowsActionsMeaning(b: BoardData, len: int, n: int, a: Action)
    requires 0 <= n <= 10 && Largest(b) == Some(len)
    ensures a in RowsActions(b, len, n) <==> 0 <= a.pos.0 < n && Allowed(b, a)
  {
    if n > 0 {
      RowsActionsMeaning(b, len, n - 1, a);
      RowActionsMeaning(b, len, n - 1, 10, a);
    }
  }

  /** actions lists exactly the allowed placements of the largest remaining ship, unless
      it returns early with []. */
  lemma ActionsMeaning(b: BoardData, a: Action)
    ensures a in Actions(b) <==> !Pruned(b) && Allowed(b, a)
  {
    if !Pruned(b) {
      RowsActionsMeaning(b, Largest(b).value, 10, a);
    }
  }

  /** The three early returns of actions: too few free cells, no ship left, or no line
      long enough for the largest ship. */
  lemma ActionsEmpty(b: BoardData)
    ensures b.free < b.piecesLeft ==> Actions(b) == []
    ensures (forall k :: 1 <= k <= 4 ==> b.ships[k] <= 0) ==> Actions(b) == []
    ensures (Largest(b).Some? &&
             (forall j :: 0 <= j < 10 ==> b.cols[j] < Largest(b).value) &&
             (forall i :: 0 <= i < 10 ==> b.rows[i] < Largest(b).value)) ==> Actions(b) == []
  {
  }

  /** result: insert the ship on a copy of the board, then fill_waters. */
  function Result(b: BoardData, a: Action): BoardData
    requires ShipFits(a.o, a.pos.0, a.pos.1, a.len)
  {
    FillWaters(InsertShip(b, a.o, a.pos.0, a.pos.1, a.len))
  }

  /** Every action actions offers fits on the board. */
  lemma ActionFits(b: BoardData, a: Action)
    requires a in Actions(b)
    ensures ShipFits(a.o, a.pos.0, a.pos.1, a.len) && 1 <= a.len <= 4
    ensures SpanClear(b.matrix, a.o, a.pos.0, a.pos.1, a.len)
  {
    ActionsMeaning(b, a);
    var len := a.len;
    if len == 1 {
      NoShipAroundMeaning(b.matrix, a.pos);
      assert CellAt(a.o, a.pos.0, a.pos.1, 0) == a.pos;
    } else {
      CanPlaceClear(b, a.o, a.pos.0, a.pos.1, len);
    }
  }

  /** The result of a ship that fits places one ship of its length: ships[len] drops by
      one, pieces_left by len, and pieces_left stays equal to the cells the inventory
      holds. */
  lemma ResultCounts(b: BoardData, a: Action)
    requires ShipFits(a.o, a.pos.0, a.pos.1, a.len) && 1 <= a.len <= 4
    ensures Result(b, a).ships == b.ships[a.len := b.ships[a.len] - 1]
    ensures Result(b, a).piecesLeft == b.piecesLeft - a.len
    ensures PiecesCounted(b) ==> PiecesCounted(Result(b, a))
  {
    InsertShipCounts(b, a.o, a.pos.0, a.pos.1, a.len);
  }

  /** On free cells with no ship around them, the result keeps free_positions exact; it
      leaves no unknown cell in a line whose counter is 0. */
  lemma ResultDrift(b: BoardData, a: Action)
    requires ShipFits(a.o, a.pos.0, a.pos.1, a.len) && 1 <= a.len <= 4
    requires SpanClear(b.matrix, a.o, a.pos.0, a.pos.1, a.len)
    ensures FreeDrift(Result(b, a)) == FreeDrift(b)
    ensures LinesFilled(Result(b, a))
  {
    var b1 := InsertShip(b, a.o, a.pos.0, a.pos.1, a.len);
    InsertShipDrift(b, a.o, a.pos.0, a.pos.1, a.len);
    FillWatersEffect(b1);
  }

  /** Every action actions offers can be taken, and its result keeps both board
      invariants: free_positions equals the unknown count, and pieces_left the cells the
      inventory holds. */
  lemma ActionKeepsInvariants(b: BoardData, a: Action)
    requires a in Actions(b)
    ensures ShipFits(a.o, a.pos.0, a.pos.1, a.len) && 1 <= a.len <= 4
    ensures FreeCounted(b) ==> FreeCounted(Result(b, a))
    ensures PiecesCounted(b) ==> PiecesCounted(Result(b, a))
  {
    ActionFits(b, a);
    ResultCounts(b, a);
    ResultDrift(b, a);
  }
}
