/** The state of a Bimaru board as a value, and the water operations of the source's
    Board class: insert_water, the loops that water a list of cells, fill_water_row,
    fill_water_col and fill_waters. */
module Waters {
  import opened Cells

  /** row_values / col_values: ship cells still wanted per row / column. */
  type Counters = s: seq<int> | |s| == 10 witness [0, 0, 0, 0, 0, 0, 0, 0, 0, 0]

  /** ships: how many ships of each length 1..4 are still to be placed. */
  type Inventory = m: map<int, int> | m.Keys == {1, 2, 3, 4}
    witness map[1 := 4, 2 := 3, 3 := 2, 4 := 1]

  /** Every field of a Board that its operations update. */
  datatype BoardData = BoardData(
    matrix: Matrix,
    rows: Counters,
    cols: Counters,
    ships: Inventory,
    free: int,                // free_positions
    piecesLeft: int,          // pieces_left
    hintsToPlace: int,        // num_hints_placed
    hintsPlaced: seq<Coord>)  // hints_placed

  /** How far free_positions is from the number of unknown cells; 0 on a consistent
      board (free_positions + #known cells == 100). */
  function FreeDrift(b: BoardData): int {
    b.free - UnknownCells(b.matrix)
  }

  predicate FreeCounted(b: BoardData) {
    FreeDrift(b) == 0
  }

  /** pieces_left equals the number of ship cells the inventory still holds. */
  predicate PiecesCounted(b: BoardData) {
    b.piecesLeft == 4 * b.ships[4] + 3 * b.ships[3] + 2 * b.ships[2] + b.ships[1]
  }

  /** The ships of a puzzle: one battleship (4), two cruisers (3), three destroyers (2)
      and four submarines (1). */
  const Fleet: Inventory := map[4 := 1, 3 := 2, 2 := 3, 1 := 4]

  /** Board.__init__: an all-unknown matrix, the given counters, one battleship, two
      cruisers, three destroyers and four submarines, 100 free positions and 20 pieces. */
  function NewBoard(totalHints: int, row: Counters, col: Counters): (b: BoardData)
    ensures FreeCounted(b) && PiecesCounted(b)
    ensures forall q :: InGrid(q) ==> At(b.matrix, q) == Unknown
    ensures b.ships == Fleet && b.free == 100 && b.piecesLeft == 20
    ensures b.rows == row && b.cols == col && b.hintsToPlace == totalHints && b.hintsPlaced == []
  {
    EmptyMatrixUnknowns();
    BoardData(EmptyMatrix(), row, col, Fleet, 100, 20, totalHints, [])
  }

  /** One ship of length len fewer in the inventory. */
  function Fewer(s: Inventory, len: int): Inventory
    requires 1 <= len <= 4
  {
    s[len := s[len] - 1]
  }

  /** Everything but the matrix and free_positions is as before. */
  predicate SameCounts(b: BoardData, b': BoardData) {
    && b'.rows == b.rows && b'.cols == b.cols && b'.ships == b.ships
    && b'.piecesLeft == b.piecesLeft
    && b'.hintsToPlace == b.hintsToPlace && b'.hintsPlaced == b.hintsPlaced
  }

  /** insert_water: the cell becomes water; free_positions drops by one unless it was
      water already. */
  function InsertWater(b: BoardData, p: Coord): (b': BoardData)
    requires InGrid(p)
    ensures At(b'.matrix, p) == Water
    ensures forall q :: InGrid(q) && q != p ==> At(b'.matrix, q) == At(b.matrix, q)
    ensures b'.free == b.free - (if At(b.matrix, p) == Water then 0 else 1)
    ensures SameCounts(b, b')
  {
    if b.matrix[p.0][p.1] != Water then b.(matrix := Set(b.matrix, p, Water), free := b.free - 1)
    else b
  }

  /** A second insert_water on the same cell changes nothing. */
  lemma InsertWaterIdempotent(b: BoardData, p: Coord)
    requires InGrid(p)
    ensures InsertWater(InsertWater(b, p), p) == InsertWater(b, p)
  {
  }

  /** insert_water keeps free_positions equal to the unknown count, except when it
      overwrites a ship piece. */
  lemma InsertWaterDrift(b: BoardData, p: Coord)
    requires InGrid(p)
    ensures FreeDrift(InsertWater(b, p)) == FreeDrift(b) - (if IsShip(At(b.matrix, p)) then 1 else 0)
  {
    if At(b.matrix, p) != Water {
      UnknownCellsSet(b.matrix, p, Water);
    }
  }

  /** The listed cells that are not water yet: the ones insert_water takes a free
      position for. */
  function Dry(m: Matrix, ps: seq<Coord>): set<Coord>
    requires forall q :: q in ps ==> InGrid(q)
  {
    set q | q in ps && At(m, q) != Water
  }

  /** The first insert_water of a list takes a free position exactly when its cell is not
      water yet; the later ones count the rest of the list on the updated matrix. */
  lemma DryStep(b: BoardData, ps: seq<Coord>)
    requires ps != [] && forall q :: q in ps ==> InGrid(q)
    ensures |Dry(b.matrix, ps)| ==
      (if At(b.matrix, ps[0]) != Water then 1 else 0) + |Dry(InsertWater(b, ps[0]).matrix, ps[1..])|
  {
    var rest := Dry(InsertWater(b, ps[0]).matrix, ps[1..]);
    assert ps[0] !in rest;
    if At(b.matrix, ps[0]) != Water {
      assert Dry(b.matrix, ps) == rest + {ps[0]};
    } else {
      assert Dry(b.matrix, ps) == rest;
    }
  }

  /** Water every listed cell in turn. */
  function FloodAll(b: BoardData, ps: seq<Coord>): (b': BoardData)
    requires forall q :: q in ps ==> InGrid(q)
    ensures forall q :: InGrid(q) ==> At(b'.matrix, q) == if q in ps then Water else At(b.matrix, q)
    ensures SameCounts(b, b')
    decreases |ps|
  {
    if ps == [] then b else FloodAll(InsertWater(b, ps[0]), ps[1..])
  }

  /** Watering a list of cells takes one free position for each distinct listed cell that
      was not water yet. */
  lemma {:induction false} FloodAllFree(b: BoardData, ps: seq<Coord>)
    requires forall q :: q in ps ==> InGrid(q)
    ensures FloodAll(b, ps).free == b.free - |Dry(b.matrix, ps)|
    decreases |ps|
  {
    if ps != [] {
      DryStep(b, ps);
      FloodAllFree(InsertWater(b, ps[0]), ps[1..]);
    }
  }

  /** Watering cells none of which holds a ship keeps free_positions exact. */
  lemma {:induction false} FloodAllDrift(b: BoardData, ps: seq<Coord>)
    requires forall q :: q in ps ==> InGrid(q) && !IsShip(At(b.matrix, q))
    ensures FreeDrift(FloodAll(b, ps)) == FreeDrift(b)
    decreases |ps|
  {
    if ps != [] {
      var b1 := InsertWater(b, ps[0]);
      InsertWaterDrift(b, ps[0]);
      FloodAllDrift(b1, ps[1..]);
    }
  }

  /** Water p if it is still free. */
  function WaterIfFree(b: BoardData, p: Coord): BoardData {
    if IsFree(b.matrix, p) then InsertWater(b, p) else b
  }

  /** The same test-then-water step over a list of coordinates, some maybe off the board. */
  function FloodFree(b: BoardData, ps: seq<Coord>): (b': BoardData)
    ensures forall q :: InGrid(q) ==>
      At(b'.matrix, q) == if q in ps && At(b.matrix, q) == Unknown then Water else At(b.matrix, q)
    ensures SameCounts(b, b')
    decreases |ps|
  {
    if ps == [] then b else FloodFree(WaterIfFree(b, ps[0]), ps[1..])
  }

  /** Watering only unknown cells always keeps free_positions exact. */
  lemma {:induction false} FloodFreeDrift(b: BoardData, ps: seq<Coord>)
    ensures FreeDrift(FloodFree(b, ps)) == FreeDrift(b)
    decreases |ps|
  {
    if ps != [] {
      if IsFree(b.matrix, ps[0]) {
        InsertWaterDrift(b, ps[0]);
      }
      FloodFreeDrift(WaterIfFree(b, ps[0]), ps[1..]);
    }
  }

  function RowCoords(r: int): (s: seq<Coord>)
    ensures forall q :: q in s <==> q.0 == r && 0 <= q.1 < 10
  {
    var s := seq(10, j => (r, j));
    assert forall q: Coord :: q.0 == r && 0 <= q.1 < 10 ==> s[q.1] == q;
    s
  }

  function ColCoords(c: int): (s: seq<Coord>)
    ensures forall q :: q in s <==> q.1 == c && 0 <= q.0 < 10
  {
    var s := seq(10, i => (i, c));
    assert forall q: Coord :: q.1 == c && 0 <= q.0 < 10 ==> s[q.0] == q;
    s
  }

  /** fill_water_row: every unknown cell of row r becomes water. */
  function FillRow(b: BoardData, r: int): BoardData {
    FloodFree(b, RowCoords(r))
  }

  /** fill_water_col: every unknown cell of column c becomes water. */
  function FillCol(b: BoardData, c: int): BoardData {
    FloodFree(b, ColCoords(c))
  }

  /** The iterations idx, idx+1, ..., 9 of fill_waters: row idx if its counter is 0,
      then column idx if its counter is 0. */
  function FillFrom(b: BoardData, idx: int): (b': BoardData)
    requires 0 <= idx <= 10
    ensures forall q :: InGrid(q) ==>
      At(b'.matrix, q) ==
        if At(b.matrix, q) == Unknown &&
           ((idx <= q.0 && b.rows[q.0] == 0) || (idx <= q.1 && b.cols[q.1] == 0))
        then Water else At(b.matrix, q)
    ensures SameCounts(b, b')
    decreases 10 - idx
  {
    if idx == 10 then b
    else
      var b1 := if b.rows[idx] == 0 then FillRow(b, idx) else b;
      var b2 := if b1.cols[idx] == 0 then FillCol(b1, idx) else b1;
      FillFrom(b2, idx + 1)
  }

  lemma {:induction false} FillFromDrift(b: BoardData, idx: int)
    requires 0 <= idx <= 10
    ensures FreeDrift(FillFrom(b, idx)) == FreeDrift(b)
    decreases 10 - idx
  {
    if idx < 10 {
      var b1 := if b.rows[idx] == 0 then FillRow(b, idx) else b;
      var b2 := if b1.cols[idx] == 0 then FillCol(b1, idx) else b1;
      FloodFreeDrift(b, RowCoords(idx));
      FloodFreeDrift(b1, ColCoords(idx));
      FillFromDrift(b2, idx + 1);
    }
  }

  /** fill_waters: every unknown cell of a row or column whose counter is 0 becomes
      water; ship cells, counters and the inventory are unchanged. */
  function FillWaters(b: BoardData): (b': BoardData)
    ensures forall q :: InGrid(q) ==>
      At(b'.matrix, q) ==
        if At(b.matrix, q) == Unknown && (b.rows[q.0] == 0 || b.cols[q.1] == 0)
        then Water else At(b.matrix, q)
    ensures SameCounts(b, b')
  {
    FillFrom(b, 0)
  }

  /** After fill_waters no row or column whose counter is 0 has an unknown cell. */
  ghost predicate LinesFilled(b: BoardData) {
    forall q :: InGrid(q) && (b.rows[q.0] == 0 || b.cols[q.1] == 0) ==> At(b.matrix, q) != Unknown
  }

  /** fill_waters establishes LinesFilled, changes no ship piece, and keeps
      free_positions exactly as far from the unknown count as it was. */
  lemma FillWatersEffect(b: BoardData)
    ensures LinesFilled(FillWaters(b))
    ensures forall q :: InGrid(q) && IsShip(At(b.matrix, q)) ==> At(FillWaters(b).matrix, q) == At(b.matrix, q)
    ensures FreeDrift(FillWaters(b)) == FreeDrift(b)
  {
    FillWatersFilled(b);
    FillFromDrift(b, 0);
  }

  lemma FillWatersFilled(b: BoardData)
    ensures LinesFilled(FillWaters(b))
  {
    var b' := FillWaters(b);
    forall q | InGrid(q) && (b'.rows[q.0] == 0 || b'.cols[q.1] == 0)
      ensures At(b'.matrix, q) != Unknown
    {
    }
  }

  lemma MatrixExt(m1: Matrix, m2: Matrix)
    requires forall q :: InGrid(q) ==> At(m1, q) == At(m2, q)
    ensures m1 == m2
  {
    forall r | 0 <= r < 10 ensures m1[r] == m2[r] {
      forall c | 0 <= c < 10 ensures m1[r][c] == m2[r][c] {
        assert At(m1, (r, c)) == At(m2, (r, c));
      }
    }
  }

  /** fill_waters on a board with no unknown cell in a line whose counter is 0 changes
      nothing. */
  lemma FillWatersNoop(b: BoardData)
    requires LinesFilled(b)
    ensures FillWaters(b) == b
  {
    FillWatersSameMatrix(b);
    FillFromDrift(b, 0);
  }

  lemma FillWatersSameMatrix(b: BoardData)
    requires LinesFilled(b)
    ensures FillWaters(b).matrix == b.matrix
  {
    MatrixExt(FillWaters(b).matrix, b.matrix);
  }

  /** A second fill_waters right after the first changes nothing. */
  lemma FillWatersIdempotent(b: BoardData)
    ensures FillWaters(FillWaters(b)) == FillWaters(b)
  {
    FillWatersFilled(b);
    FillWatersNoop(FillWaters(b));
  }
}
