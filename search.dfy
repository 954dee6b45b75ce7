/** The search problem: BimaruState (a board and an id drawn from a shared counter) and
    the Bimaru problem's actions, result and goal_test over it. */
module Search {
  import opened Cells
  import opened Waters
  import opened Pieces
  import opened Hints
  import opened Placement
  import opened Boards

  /** BimaruState.state_id: the class-level counter every new state takes its id from. */
  class Ids {
    var next: int

    constructor(start: int)
      ensures next == start
    {
      next := start;
    }
  }

  /** BimaruState: a board and its id. */
  class State {
    const board: Board
    const id: int

    /** BimaruState.__init__: take the next id and advance the counter. */
    constructor(board: Board, ids: Ids)
      modifies ids
      ensures this.board == board && id == old(ids.next) && ids.next == old(ids.next) + 1
    {
      this.board := board;
      id := ids.next;
      ids.next := ids.next + 1;
    }
  }

  class Bimaru {
    const initial: State
    const board: Board
    const ids: Ids

    /** Bimaru.__init__ */
    constructor(initial: State, ids: Ids)
      ensures this.initial == initial && board == initial.board && this.ids == ids
    {
      this.initial := initial;
      board := initial.board;
      this.ids := ids;
    }

    /** actions: [] on any early return, otherwise, row by row and cell by cell, the
        placements of the largest remaining ship the board admits. */
    method Actions(s: State) returns (acts: seq<Action>)
      ensures acts == Placement.Actions(s.board.Data())
    {
      var b := s.board;
      acts := [];
      if b.free < b.piecesLeft {
        return;
      }
      var largest := Largest(b.Data());
      if largest.None? {
        return;
      }
      var len := largest.value;
      if (forall j | 0 <= j < 10 :: b.cols[j] < len) && (forall i | 0 <= i < 10 :: b.rows[i] < len) {
        return;
      }
      var rowsActs, pruned := ScanRows(b, len);
      if !pruned {
        acts := rowsActs;
      }
    }

    /** The outer loop of actions: pruned where a row has fewer free cells than its
        counter, or, while row 0 is scanned (its counter not 0), such a column. */
    method ScanRows(b: Board, len: int) returns (acts: seq<Action>, pruned: bool)
      ensures pruned <==>
        || (exists i :: 0 <= i < 10 && CountFree(b.matrix, RowCoords(i)) < b.rows[i])
        || (b.rows[0] != 0 && exists j :: 0 <= j < 10 && CountFree(b.matrix, ColCoords(j)) < b.cols[j])
      ensures !pruned ==> acts == RowsActions(b.Data(), len, 10)
    {
      ghost var d := b.Data();
      acts := [];
      var row := 0;
      while row < 10
        invariant 0 <= row <= 10
        invariant acts == RowsActions(d, len, row)
        invariant forall i :: 0 <= i < row ==> CountFree(d.matrix, RowCoords(i)) >= d.rows[i]
        invariant 0 < row && d.rows[0] != 0 ==>
          forall j :: 0 <= j < 10 ==> CountFree(d.matrix, ColCoords(j)) >= d.cols[j]
      {
        if CountFree(b.matrix, RowCoords(row)) < b.rows[row] {
          return [], true;
        }
        if b.rows[row] != 0 {
          var rowActs, rowPruned := ScanRow(b, len, row);
          if rowPruned {
            return [], true;
          }
          acts := acts + rowActs;
        } else {
          RowActionsSkipped(d, len, row, 10);
        }
        row := row + 1;
      }
      pruned := false;
    }

    /** The inner loop of actions over the cells of one row whose counter is not 0;
        pruned where, scanning row 0, a column has fewer free cells than its counter. */
    method ScanRow(b: Board, len: int, row: int) returns (acts: seq<Action>, pruned: bool)
      requires 0 <= row < 10
      ensures pruned <==> row == 0 && exists j :: 0 <= j < 10 && CountFree(b.matrix, ColCoords(j)) < b.cols[j]
      ensures !pruned ==> acts == RowActions(b.Data(), len, row, 10)
    {
      acts := [];
      var col := 0;
      while col < 10
        invariant 0 <= col <= 10
        invariant acts == RowActions(b.Data(), len, row, col)
        invariant row == 0 ==> forall j :: 0 <= j < col ==> CountFree(b.matrix, ColCoords(j)) >= b.cols[j]
      {
        if row == 0 && CountFree(b.matrix, ColCoords(col)) < b.cols[col] {
          return [], true;
        }
        var cellActs := CellActions(b, len, row, col);
        acts := acts + cellActs;
        col := col + 1;
      }
      pruned := false;
    }

    /** The body of the inner loop of actions for cell (r, c). */
    method CellActions(b: Board, len: int, r: int, c: int) returns (acts: seq<Action>)
      requires InGrid((r, c))
      ensures acts == Placement.CellActions(b.Data(), len, r, c)
    {
      acts := [];
      if b.rows[r] != 0 && b.cols[c] != 0 && IsFree(b.matrix, (r, c)) {
        if len == 1 {
          if NoShipAround(b.matrix, (r, c)) {
            acts := [Action(Vertical, (r, c), len)];
          }
        } else {
          var vertical := b.CanPlaceShip(Vertical, r, c, len);
          if vertical {
            acts := acts + [Action(Vertical, (r, c), len)];
          }
          var horizontal := b.CanPlaceShip(Horizontal, r, c, len);
          if horizontal {
            acts := acts + [Action(Horizontal, (r, c), len)];
          }
        }
      }
    }

    /** result: a deep copy of the state's board with the ship inserted and the waters
        filled, in a new state with the next id; the given state is left as it was. */
    method Result(s: State, a: Action) returns (s': State)
      requires ShipFits(a.o, a.pos.0, a.pos.1, a.len)
      modifies ids
      ensures fresh(s') && fresh(s'.board)
      ensures s'.board.Data() == Placement.Result(s.board.Data(), a) && s'.board.hints == s.board.hints
      ensures s'.id == old(ids.next) && ids.next == old(ids.next) + 1
      ensures unchanged(s.board)
    {
      var copy := new Board.Copy(s.board);
      Apply(copy, a);
      s' := new State(copy, ids);
    }

    /** The two calls result makes on the copied board. */
    method Apply(board: Board, a: Action)
      requires ShipFits(a.o, a.pos.0, a.pos.1, a.len)
      modifies board
      ensures board.Data() == Placement.Result(old(board.Data()), a)
    {
      board.InsertShip(a.o, a.pos.0, a.pos.1, a.len);
      board.FillWaters();
    }

    /** goal_test: is_complete() and all_hints_placed(); None where the latter raises. */
    method GoalTest(s: State) returns (r: Option<bool>)
      ensures r == Hints.GoalTest(s.board.Data(), s.board.hints)
    {
      if !IsComplete(s.board.Data()) {
        return Some(false);
      }
      r := s.board.AllHintsPlaced();
    }
  }
}
