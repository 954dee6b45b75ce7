/** The source's Board class: the matrix, the counters and the bookkeeping as fields,
    each operation a method that updates them in place, proved to leave the board in
    the state the matching function of Waters, Pieces, Hints or Placement describes. */
module Boards {
  import opened Cells
  import opened Waters
  import opened Pieces
  import opened Hints
  import opened Placement

  class Board {
    var matrix: Matrix
    var rows: Counters            // row_values
    var cols: Counters            // col_values
    var ships: Inventory
    const hints: seq<Hint>
    var hintsToPlace: int         // num_hints_placed
    var hintsPlaced: seq<Coord>   // hints_placed
    var free: int                 // free_positions
    var piecesLeft: int           // pieces_left

    /** The fields, as a value. */
    function Data(): BoardData
      reads this
    {
      BoardData(matrix, rows, cols, ships, free, piecesLeft, hintsToPlace, hintsPlaced)
    }

    /** Board.__init__ */
    constructor(totalHints: int, hints: seq<Hint>, row: Counters, col: Counters)
      ensures Data() == NewBoard(totalHints, row, col) && this.hints == hints
    {
      matrix := EmptyMatrix();
      rows := row;
      cols := col;
      ships := Fleet;
      this.hints := hints;
      hintsToPlace := totalHints;
      hintsPlaced := [];
      free := 100;
      piecesLeft := 20;
    }

    /** copy.deepcopy(board): a new board with the same contents. */
    constructor Copy(other: Board)
      ensures Data() == other.Data() && hints == other.hints
    {
      matrix := other.matrix;
      rows := other.rows;
      cols := other.cols;
      ships := other.ships;
      hints := other.hints;
      hintsToPlace := other.hintsToPlace;
      hintsPlaced := other.hintsPlaced;
      free := other.free;
      piecesLeft := other.piecesLeft;
    }

    /** insert_water */
    method InsertWater(p: Coord)
      requires InGrid(p)
      modifies this
      ensures Data() == Waters.InsertWater(old(Data()), p)
    {
      if matrix[p.0][p.1] != Water {
        matrix := Set(matrix, p, Water);
        free := free - 1;
      }
    }

    /** Water q if it is still free. */
    method WaterIfFree(q: Coord)
      modifies this
      ensures Data() == Waters.WaterIfFree(old(Data()), q)
    {
      if IsFree(matrix, q) {
        InsertWater(q);
      }
    }

    /** Water every listed cell in turn. */
    method FloodAll(ps: seq<Coord>)
      requires forall q :: q in ps ==> InGrid(q)
      modifies this
      ensures Data() == Waters.FloodAll(old(Data()), ps)
    {
      var i := 0;
      while i < |ps|
        invariant 0 <= i <= |ps|
        invariant Waters.FloodAll(Data(), ps[i..]) == Waters.FloodAll(old(Data()), ps)
      {
        assert ps[i..][0] == ps[i] && ps[i..][1..] == ps[i + 1..];
        InsertWater(ps[i]);
        i := i + 1;
      }
    }

    /** The test-then-water loop over ps. */
    method FloodFree(ps: seq<Coord>)
      modifies this
      ensures Data() == Waters.FloodFree(old(Data()), ps)
    {
      var i := 0;
      while i < |ps|
        invariant 0 <= i <= |ps|
        invariant Waters.FloodFree(Data(), ps[i..]) == Waters.FloodFree(old(Data()), ps)
      {
        assert ps[i..][0] == ps[i] && ps[i..][1..] == ps[i + 1..];
        WaterIfFree(ps[i]);
        i := i + 1;
      }
    }

    /** fill_water_row */
    method FillWaterRow(r: int)
      modifies this
      ensures Data() == FillRow(old(Data()), r)
    {
      FloodFree(RowCoords(r));
    }

    /** fill_water_col */
    method FillWaterCol(c: int)
      modifies this
      ensures Data() == FillCol(old(Data()), c)
    {
      FloodFree(ColCoords(c));
    }

    /** fill_waters */
    method FillWaters()
      modifies this
      ensures Data() == Waters.FillWaters(old(Data()))
    {
      var idx := 0;
      while idx < 10
        invariant 0 <= idx <= 10
        invariant FillFrom(Data(), idx) == Waters.FillWaters(old(Data()))
      {
        if rows[idx] == 0 {
          FillWaterRow(idx);
        }
        if cols[idx] == 0 {
          FillWaterCol(idx);
        }
        idx := idx + 1;
      }
    }

    /** The bookkeeping of a piece insertion: the piece in its cell, one fewer wanted in
        its row and column, one fewer free position and piece left, and for a circle one
        fewer submarine. */
    method Stamp(p: Coord, v: Cell)
      requires InGrid(p)
      modifies this
      ensures Data() == Pieces.Stamp(old(Data()), p, v)
    {
      matrix := Set(matrix, p, v);
      rows := rows[p.0 := rows[p.0] - 1];
      cols := cols[p.1 := cols[p.1] - 1];
      ships := if v == Circle then Fewer(ships, 1) else ships;
      free := free - 1;
      piecesLeft := piecesLeft - 1;
    }

    /** insert_circle, insert_top_piece, insert_bottom_piece, insert_left_piece,
        insert_right_piece and insert_middle_piece. */
    method InsertPiece(p: Coord, v: Cell)
      requires InGrid(p) && IsShip(v)
      modifies this
      ensures Data() == PlacePiece(old(Data()), p, v)
    {
      Stamp(p, v);
      var waters := AdjacentCoords(p);
      waters := Without(waters, p, v);
      FloodAll(waters);
    }

    /** insert_ship_horizontal / insert_ship_vertical: a circle for length 1; for 2..4
        the first piece, the middles and the last piece, one call each, then one ship of
        that length fewer; any other length does nothing. */
    method InsertShip(o: Orientation, r: int, c: int, len: int)
      requires ShipFits(o, r, c, len)
      modifies this
      ensures Data() == Pieces.InsertShip(old(Data()), o, r, c, len)
    {
      ghost var b0 := Data();
      if len == 1 {
        InsertPiece(CellAt(o, r, c, 0), Circle);
        ShipOfOne(b0, Data(), o, r, c);
      } else if len == 2 {
        InsertPiece(CellAt(o, r, c, 0), First(o));
        ghost var b1 := Data();
        InsertPiece(CellAt(o, r, c, 1), Last(o));
        ShipOfTwo(b0, b1, Data(), o, r, c);
        Sink(2);
      } else if len == 3 {
        InsertPiece(CellAt(o, r, c, 0), First(o));
        ghost var b1 := Data();
        InsertPiece(CellAt(o, r, c, 1), Middle);
        ghost var b2 := Data();
        InsertPiece(CellAt(o, r, c, 2), Last(o));
        ShipOfThree(b0, b1, b2, Data(), o, r, c);
        Sink(3);
      } else if len == 4 {
        InsertPiece(CellAt(o, r, c, 0), First(o));
        ghost var b1 := Data();
        InsertPiece(CellAt(o, r, c, 1), Middle);
        ghost var b2 := Data();
        InsertPiece(CellAt(o, r, c, 2), Middle);
        ghost var b3 := Data();
        InsertPiece(CellAt(o, r, c, 3), Last(o));
        ShipOfFour(b0, b1, b2, b3, Data(), o, r, c);
        Sink(4);
      }
    }

    /** One ship of length len fewer in the inventory. */
    method Sink(len: int)
      requires 1 <= len <= 4
      modifies this
      ensures Data() == Sunk(old(Data()), len)
    {
      ships := Fewer(ships, len);
    }

    /** Reset the clue cell to unknown and count it as free again. */
    method Retract(p: Coord)
      requires InGrid(p)
      modifies this
      ensures Data() == Pieces.Retract(old(Data()), p)
    {
      matrix := Set(matrix, p, Unknown);
      free := free + 1;
    }

    /** insert_top_waters, insert_bottom_waters, insert_left_waters, insert_right_waters
        and insert_middle_waters. */
    method InsertClueWaters(p: Coord, v: Cell)
      requires ClueFits(p, v)
      modifies this
      ensures Data() == ClueWaters(old(Data()), p, v)
    {
      if v != Middle {
        var adjacent := AdjacentCoords(p);
        adjacent := Without(adjacent, p, v);
        FloodAll(adjacent);
      }
      FloodFree(Beyond(p, v));
      RetractCol(p);
      RetractRow(p);
    }

    /** When the clue's column wants one more cell: water the column, then reset the clue cell. */
    method RetractCol(p: Coord)
      requires InGrid(p)
      modifies this
      ensures Data() == Pieces.RetractCol(old(Data()), p)
    {
      if cols[p.1] == 1 {
        FillWaterCol(p.1);
        Retract(p);
      }
    }

    /** When the clue's row wants one more cell: water the row, then reset the clue cell. */
    method RetractRow(p: Coord)
      requires InGrid(p)
      modifies this
      ensures Data() == Pieces.RetractRow(old(Data()), p)
    {
      if rows[p.0] == 1 {
        FillWaterRow(p.0);
        Retract(p);
      }
    }

    /** The bookkeeping of a placed hint: one fewer to place, its position recorded. */
    method Record(p: Coord)
      modifies this
      ensures Data() == Hints.Record(old(Data()), p)
    {
      hintsToPlace := hintsToPlace - 1;
      hintsPlaced := hintsPlaced + [p];
    }

    /** A ship a hint completes; false where the source would raise or write off the
        board. */
    method ShipOrFail(o: Orientation, r: int, c: int, len: int) returns (ok: bool)
      modifies this
      ensures Hints.ShipOrFail(old(Data()), o, r, c, len) == if ok then Some(Data()) else None
    {
      if !ShipFits(o, r, c, len) {
        return false;
      }
      InsertShip(o, r, c, len);
      return true;
    }

    /** The waters a clue hint implies; false where list.remove would raise. */
    method ClueOrFail(p: Coord, v: Cell) returns (ok: bool)
      requires IsClueKind(v)
      modifies this
      ensures Hints.ClueOrFail(old(Data()), p, v) == if ok then Some(Data()) else None
    {
      if !ClueFits(p, v) {
        return false;
      }
      InsertClueWaters(p, v);
      return true;
    }

    /** The body of handle_hints' loop for one hint, before its fill_waters; false where
        the source would raise. */
    method HandleHint(h: Hint) returns (ok: bool)
      modifies this
      ensures HintStep(old(Data()), h) == if ok then Some(Data()) else None
    {
      if h.kind == Unknown {
        return true;
      }
      if !InGrid(h.pos) {
        return false;
      }
      ghost var b := Data();
      if h.kind == Circle {
        assert HintMove(b, h) == Mark(Circle);
        InsertPiece(h.pos, Circle);
        Record(h.pos);
        ok := true;
      } else if h.kind == Water {
        assert HintMove(b, h) == Mark(Water);
        InsertWater(h.pos);
        Record(h.pos);
        ok := true;
      } else if h.kind == Middle {
        ok := MiddleHint(h);
      } else {
        ok := EndHint(h);
      }
    }

    /** The "T", "B", "L" and "R" branches of handle_hints: a destroyer when the hint
        is next to the edge it points away from or its line wants exactly two cells,
        otherwise the clue's waters. */
    method EndHint(h: Hint) returns (ok: bool)
      requires InGrid(h.pos) && IsClueKind(h.kind) && h.kind != Middle
      modifies this
      ensures HintStep(old(Data()), h) == if ok then Some(Data()) else None
    {
      var (x, y) := h.pos;
      var mv: Move;
      if h.kind == Top {
        mv := if x == 8 || cols[y] == 2 then Ship(Vertical, x, y, 2, 0) else Clue(Top);
      } else if h.kind == Bottom {
        mv := if x == 1 || cols[y] == 2 then Ship(Vertical, x - 1, y, 2, 1) else Clue(Bottom);
      } else if h.kind == Left {
        mv := if y == 8 || rows[x] == 2 then Ship(Horizontal, x, y, 2, 0) else Clue(Left);
      } else {
        mv := if y == 1 || rows[x] == 2 then Ship(Horizontal, x, y - 1, 2, 1) else Clue(Right);
      }
      assert mv == HintMove(Data(), h);
      ok := Play(h.pos, mv);
    }

    /** The "M" branch of handle_hints: a cruiser across the hint when it lies on the
        board's edge row (column) and that row (column) wants exactly three cells,
        otherwise the middle clue's waters. */
    method MiddleHint(h: Hint) returns (ok: bool)
      requires InGrid(h.pos) && h.kind == Middle
      modifies this
      ensures HintStep(old(Data()), h) == if ok then Some(Data()) else None
    {
      var (x, y) := h.pos;
      var mv: Move;
      if (x == 0 || x == 9) && rows[x] == 3 {
        mv := Ship(Horizontal, x, y - 1, 3, 1);
      } else if (y == 0 || y == 9) && cols[y] == 3 {
        mv := Ship(Vertical, x - 1, y, 3, 1);
      } else {
        mv := Clue(Middle);
      }
      assert mv == HintMove(Data(), h);
      ok := Play(h.pos, mv);
    }

    /** Carry out the move a hint chose at its cell p; false where the source raises. */
    method Play(p: Coord, mv: Move) returns (ok: bool)
      requires InGrid(p)
      requires mv.Mark? ==> mv.v == Circle || mv.v == Water
      requires mv.Clue? ==> IsClueKind(mv.v)
      modifies this
      ensures Perform(old(Data()), p, mv) == if ok then Some(Data()) else None
    {
      match mv
      case Skip =>
        ok := true;
      case Mark(v) =>
        if v == Circle {
          InsertPiece(p, Circle);
        } else {
          InsertWater(p);
        }
        Record(p);
        ok := true;
      case Ship(o, r, c, len, _) =>
        ok := ShipOrFail(o, r, c, len);
      case Clue(v) =>
        ok := ClueOrFail(p, v);
    }

    /** handle_hints: each hint, then fill_waters; false as soon as a hint makes the
        source raise. */
    method HandleHints() returns (ok: bool)
      modifies this
      ensures Hints.HandleHints(old(Data()), hints) == if ok then Some(Data()) else None
    {
      var i := 0;
      while i < |hints|
        invariant 0 <= i <= |hints|
        invariant Hints.HandleHints(Data(), hints[i..]) == Hints.HandleHints(old(Data()), hints)
      {
        assert hints[i..][0] == hints[i] && hints[i..][1..] == hints[i + 1..];
        ok := HandleHint(hints[i]);
        if !ok {
          return;
        }
        FillWaters();
        i := i + 1;
      }
      return true;
    }

    /** insert_value: the piece (one branch per letter in the source) or a water, then
        fill_waters. */
    method InsertValue(p: Coord, v: Cell)
      requires InGrid(p)
      modifies this
      ensures Data() == Hints.InsertValue(old(Data()), p, v)
    {
      if IsShip(v) {
        InsertPiece(p, v);
      } else if v == Water {
        InsertWater(p);
      }
      FillWaters();
    }

    /** can_place_horizontal_ship / can_place_vertical_ship: the line's counter first,
        then each cell of the ship in turn, stopping at the first that fails. */
    method CanPlaceShip(o: Orientation, r: int, c: int, len: int) returns (ok: bool)
      requires InGrid((r, c))
      ensures ok == CanPlace(Data(), o, r, c, len)
    {
      if len > (if o == Horizontal then rows[r] else cols[c]) {
        return false;
      }
      var k := 0;
      while k < len
        invariant 0 <= k && (k <= len || k == 0)
        invariant forall i :: 0 <= i < k ==> CellOk(Data(), o, CellAt(o, r, c, i))
      {
        var q := CellAt(o, r, c, k);
        if !IsFree(matrix, q) || (if o == Horizontal then cols[q.1] else rows[q.0]) < 1 {
          return false;
        }
        if !NoShipAround(matrix, q) {
          return false;
        }
        k := k + 1;
      }
      return true;
    }

    /** get_max_ship_length_horizontal / get_max_ship_length_vertical: count passing cells
        until the first that fails (at most the largest remaining ship horizontally, at
        most 4 vertically), capped by the line's counter; None where max() raises. */
    method GetMaxShipLength(o: Orientation, r: int, c: int) returns (n: Option<int>)
      requires InGrid((r, c))
      ensures n == MaxShipLength(Data(), o, r, c)
    {
      var limit := Largest(Data());
      if limit.None? {
        return None;
      }
      var bound := if o == Horizontal then limit.value else 4;
      var len := 0;
      while len < bound
        invariant 0 <= len <= bound
        invariant RunFrom(Data(), o, r, c, 0, bound) == len + RunFrom(Data(), o, r, c, len, bound)
      {
        var q := CellAt(o, r, c, len);
        if !IsFree(matrix, q) || (if o == Horizontal then cols[q.1] else rows[q.0]) < 1 {
          break;
        }
        if !NoShipAround(matrix, q) {
          break;
        }
        len := len + 1;
      }
      var line := if o == Horizontal then rows[r] else cols[c];
      return Some(if len <= line then len else line);
    }

    /** all_hints_placed: the hints in order; None at an unknown hint cell (where the
        source's `0.upper()` raises) or a position off the board. */
    method AllHintsPlaced() returns (res: Option<bool>)
      ensures res == HintsMatch(matrix, hints)
    {
      var i := 0;
      while i < |hints|
        invariant 0 <= i <= |hints|
        invariant HintsMatch(matrix, hints[i..]) == HintsMatch(matrix, hints)
      {
        assert hints[i..][0] == hints[i] && hints[i..][1..] == hints[i + 1..];
        var p := hints[i].pos;
        if !InGrid(p) || matrix[p.0][p.1] == Unknown {
          return None;
        }
        if matrix[p.0][p.1] != hints[i].kind {
          return Some(false);
        }
        i := i + 1;
      }
      return Some(true);
    }
  }
}
