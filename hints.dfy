/** The hints of a puzzle: handle_hints (the deductions drawn from each hint when the
    board is set up), insert_value, and the goal test built from is_complete and
    all_hints_placed. */
module Hints {
  import opened Cells
  import opened Waters
  import opened Pieces

  /** A hint: the cell at pos holds kind ("C" is Circle, "W" Water, "T" Top, "B" Bottom,
      "L" Left, "R" Right, "M" Middle). A letter the source does not know is Unknown:
      handle_hints skips it and no cell ever matches it. */
  datatype Hint = Hint(pos: Coord, kind: Cell)

  /** The bookkeeping of a placed hint: one fewer to place, its position recorded. */
  function Record(b: BoardData, p: Coord): BoardData {
    b.(hintsToPlace := b.hintsToPlace - 1, hintsPlaced := b.hintsPlaced + [p])
  }

  /** insert_ship_*, or None where the ship would leave the board. */
  function ShipOrFail(b: BoardData, o: Orientation, r: int, c: int, len: int): (res: Option<BoardData>)
    ensures res.Some? <==> ShipFits(o, r, c, len)
  {
    if ShipFits(o, r, c, len) then Some(InsertShip(b, o, r, c, len)) else None
  }

  /** insert_*_waters, or None where list.remove would raise. */
  function ClueOrFail(b: BoardData, p: Coord, v: Cell): (res: Option<BoardData>)
    requires IsClueKind(v)
    ensures res.Some? <==> ClueFits(p, v)
  {
    if ClueFits(p, v) then Some(ClueWaters(b, p, v)) else None
  }

  /** What handle_hints does with one hint: nothing (an unknown letter), mark the cell
      ("C" and "W": a circle or a water, with the hint's bookkeeping), place a whole
      ship of which the hint is piece `at`, or draw the clue's water deductions. */
  datatype Move = Skip | Mark(v: Cell) | Ship(o: Orientation, r: int, c: int, len: int, at: int) | Clue(v: Cell)

  /** The branch of handle_hints' loop a hint takes. */
  function HintMove(b: BoardData, h: Hint): (mv: Move)
    requires InGrid(h.pos)
    ensures mv.Skip? <==> h.kind == Unknown
    ensures mv.Mark? <==> h.kind == Circle || h.kind == Water
    ensures mv.Mark? || mv.Clue? ==> mv.v == h.kind
    ensures mv.Clue? ==> IsClueKind(h.kind)
    ensures mv.Ship? ==>
      && 0 <= mv.at < mv.len
      && CellAt(mv.o, mv.r, mv.c, mv.at) == h.pos && ShipKind(mv.o, mv.len, mv.at) == h.kind
    // an end hint completes a destroyer on the second row or column from the edge it
    // points away from, or when the counter of its line is 2
    ensures h.kind == Top ==> (mv.Ship? <==> h.pos.0 == 8 || b.cols[h.pos.1] == 2)
    ensures h.kind == Bottom ==> (mv.Ship? <==> h.pos.0 == 1 || b.cols[h.pos.1] == 2)
    ensures h.kind == Left ==> (mv.Ship? <==> h.pos.1 == 8 || b.rows[h.pos.0] == 2)
    ensures h.kind == Right ==> (mv.Ship? <==> h.pos.1 == 1 || b.rows[h.pos.0] == 2)
    ensures mv.Ship? && h.kind != Middle ==>
      mv.len == 2 && mv.o == (if h.kind == Top || h.kind == Bottom then Vertical else Horizontal)
    // a middle hint completes a cruiser only on a border row or column whose counter is
    // 3, lying along that border
    ensures h.kind == Middle ==>
      (mv.Ship? <==> ((h.pos.0 == 0 || h.pos.0 == 9) && b.rows[h.pos.0] == 3) ||
                     ((h.pos.1 == 0 || h.pos.1 == 9) && b.cols[h.pos.1] == 3))
    ensures mv.Ship? && h.kind == Middle ==>
      mv.len == 3 && mv.o == (if (h.pos.0 == 0 || h.pos.0 == 9) && b.rows[h.pos.0] == 3 then Horizontal else Vertical)
  {
    var (x, y) := h.pos;
    match h.kind
    case Unknown => Skip
    case Circle => Mark(Circle)
    case Water => Mark(Water)
    case Top => if x == 8 || b.cols[y] == 2 then Ship(Vertical, x, y, 2, 0) else Clue(Top)
    case Bottom => if x == 1 || b.cols[y] == 2 then Ship(Vertical, x - 1, y, 2, 1) else Clue(Bottom)
    case Left => if y == 8 || b.rows[x] == 2 then Ship(Horizontal, x, y, 2, 0) else Clue(Left)
    case Right => if y == 1 || b.rows[x] == 2 then Ship(Horizontal, x, y - 1, 2, 1) else Clue(Right)
    case Middle =>
      if x == 0 && b.rows[x] == 3 then Ship(Horizontal, x, y - 1, 3, 1)
      else if x == 9 && b.rows[x] == 3 then Ship(Horizontal, x, y - 1, 3, 1)
      else if y == 0 && b.cols[y] == 3 then Ship(Vertical, x - 1, y, 3, 1)
      else if y == 9 && b.cols[y] == 3 then Ship(Vertical, x - 1, y, 3, 1)
      else Clue(Middle)
  }

  /** Carry out a move at the hint's cell p. */
  function Perform(b: BoardData, p: Coord, mv: Move): Option<BoardData>
    requires InGrid(p)
    requires mv.Mark? ==> mv.v == Circle || mv.v == Water
    requires mv.Clue? ==> IsClueKind(mv.v)
  {
    match mv
    case Skip => Some(b)
    case Mark(v) => Some(Record(if v == Circle then PlacePiece(b, p, Circle) else InsertWater(b, p), p))
    case Ship(o, r, c, len, _) => ShipOrFail(b, o, r, c, len)
    case Clue(v) => ClueOrFail(b, p, v)
  }

  /** The body of handle_hints' loop for one hint, before its fill_waters. None where the
      source would raise (a continuation cell or ship end off the board) or index the
      matrix with a position off the board. */
  function HintStep(b: BoardData, h: Hint): Option<BoardData> {
    if h.kind == Unknown then Some(b)
    else if !InGrid(h.pos) then None
    else Perform(b, h.pos, HintMove(b, h))
  }

  /** handle_hints: each hint in turn, each followed by fill_waters; None as soon as a
      hint fails. */
  function HandleHints(b: BoardData, hs: seq<Hint>): Option<BoardData>
    decreases |hs|
  {
    if hs == [] then Some(b)
    else
      match HintStep(b, hs[0])
      case None => None
      case Some(b1) => HandleHints(FillWaters(b1), hs[1..])
  }

  /** handle_hints does the bookkeeping of "C" and "W" hints only. */
  predicate IsRecorded(h: Hint) {
    h.kind == Circle || h.kind == Water
  }

  /** The positions of the hints whose bookkeeping handle_hints does, in order. */
  function RecordedPositions(hs: seq<Hint>): (ps: seq<Coord>)
    ensures |ps| <= |hs|
  {
    if hs == [] then []
    else (if IsRecorded(hs[0]) then [hs[0].pos] else []) + RecordedPositions(hs[1..])
  }

  /** The recorded positions are exactly those of the "C" and "W" hints; one hint
      contributes its own position or nothing, and the positions of two stretches of
      hints follow one another. */
  lemma {:induction false} RecordedPositionsMeaning(hs: seq<Hint>)
    ensures forall p :: p in RecordedPositions(hs) <==>
      exists i :: 0 <= i < |hs| && IsRecorded(hs[i]) && hs[i].pos == p
    ensures |hs| == 1 ==> RecordedPositions(hs) == if IsRecorded(hs[0]) then [hs[0].pos] else []
    decreases |hs|
  {
    if hs != [] {
      RecordedPositionsMeaning(hs[1..]);
      forall p | p in RecordedPositions(hs[1..])
        ensures exists i :: 0 <= i < |hs| && IsRecorded(hs[i]) && hs[i].pos == p
      {
        var i :| 0 <= i < |hs[1..]| && IsRecorded(hs[1..][i]) && hs[1..][i].pos == p;
        assert hs[i + 1] == hs[1..][i];
      }
      forall i | 1 <= i < |hs| && IsRecorded(hs[i])
        ensures hs[i].pos in RecordedPositions(hs[1..])
      {
        assert hs[1..][i - 1] == hs[i];
      }
    }
  }

  lemma {:induction false} RecordedPositionsAppend(hs1: seq<Hint>, hs2: seq<Hint>)
    ensures RecordedPositions(hs1 + hs2) == RecordedPositions(hs1) + RecordedPositions(hs2)
    decreases |hs1|
  {
    if hs1 != [] {
      assert (hs1 + hs2)[0] == hs1[0];
      assert (hs1 + hs2)[1..] == hs1[1..] + hs2;
      RecordedPositionsAppend(hs1[1..], hs2);
    } else {
      assert hs1 + hs2 == hs2;
    }
  }

  /** A hint that is marked or completes a ship leaves its piece in its cell. */
  lemma HintStepSettles(b: BoardData, h: Hint)
    requires InGrid(h.pos) && HintStep(b, h).Some?
    requires HintMove(b, h).Mark? || HintMove(b, h).Ship?
    ensures At(HintStep(b, h).value.matrix, h.pos) == h.kind
  {
    var mv := HintMove(b, h);
    if mv.Ship? {
      ShipHintCell(b, mv.o, mv.r, mv.c, mv.len, mv.at);
    }
  }

  lemma ShipHintCell(b: BoardData, o: Orientation, r: int, c: int, len: int, i: int)
    requires 1 <= len <= 4 && ShipFits(o, r, c, len) && 0 <= i < len
    ensures At(InsertShip(b, o, r, c, len).matrix, CellAt(o, r, c, i)) == ShipKind(o, len, i)
  {
    InsertShipCells(b, o, r, c, len);
  }

  /** A clue hint changes no counter; its cell is left as it was or reset to unknown. */
  lemma HintStepClue(b: BoardData, h: Hint)
    requires InGrid(h.pos) && HintMove(b, h).Clue? && HintStep(b, h).Some?
    ensures var b' := HintStep(b, h).value;
      && SameCounts(b, b')
      && (At(b'.matrix, h.pos) == At(b.matrix, h.pos) || At(b'.matrix, h.pos) == Unknown)
  {
    ClueWatersEffect(b, h.pos, h.kind);
  }

  /** One hint: the counters drop as its pieces require, and pieces_left stays equal to
      the cells the inventory holds. */
  lemma HintStepCounts(b: BoardData, h: Hint)
    requires HintStep(b, h).Some?
    ensures var b' := HintStep(b, h).value;
      && b'.hintsToPlace == b.hintsToPlace - (if h.kind == Circle || h.kind == Water then 1 else 0)
      && b'.hintsPlaced == b.hintsPlaced + (if h.kind == Circle || h.kind == Water then [h.pos] else [])
      && (PiecesCounted(b) ==> PiecesCounted(b'))
  {
    if h.kind != Unknown && InGrid(h.pos) {
      var mv := HintMove(b, h);
      if mv.Clue? {
        HintStepClue(b, h);
      } else if mv.Ship? {
        InsertShipCounts(b, mv.o, mv.r, mv.c, mv.len);
      }
    }
  }

  /** handle_hints takes one from num_hints_placed and records the position for each
      "C" and "W" hint. */
  lemma {:induction false} HandleHintsRecords(b: BoardData, hs: seq<Hint>)
    requires HandleHints(b, hs).Some?
    ensures var b' := HandleHints(b, hs).value;
      && b'.hintsToPlace == b.hintsToPlace - |RecordedPositions(hs)|
      && b'.hintsPlaced == b.hintsPlaced + RecordedPositions(hs)
    decreases |hs|
  {
    if hs != [] {
      var b1 := HintStep(b, hs[0]).value;
      HintStepCounts(b, hs[0]);
      var b2 := FillWaters(b1);
      assert HandleHints(b, hs) == HandleHints(b2, hs[1..]);
      HandleHintsRecords(b2, hs[1..]);
      var mine := if hs[0].kind == Circle || hs[0].kind == Water then [hs[0].pos] else [];
      assert RecordedPositions(hs) == mine + RecordedPositions(hs[1..]);
      CountsCompose(b, b2, HandleHints(b, hs).value, mine, RecordedPositions(hs[1..]));
    }
  }

  /** handle_hints keeps pieces_left equal to the cells the inventory holds. */
  lemma {:induction false} HandleHintsPieces(b: BoardData, hs: seq<Hint>)
    requires HandleHints(b, hs).Some? && PiecesCounted(b)
    ensures PiecesCounted(HandleHints(b, hs).value)
    decreases |hs|
  {
    if hs != [] {
      var b1 := HintStep(b, hs[0]).value;
      HintStepCounts(b, hs[0]);
      var b2 := FillWaters(b1);
      assert HandleHints(b, hs) == HandleHints(b2, hs[1..]);
      HandleHintsPieces(b2, hs[1..]);
    }
  }

  /** Two stretches of handle_hints' bookkeeping, one after the other. */
  lemma CountsCompose(b: BoardData, b1: BoardData, b2: BoardData, s1: seq<Coord>, s2: seq<Coord>)
    requires b1.hintsToPlace == b.hintsToPlace - |s1| && b1.hintsPlaced == b.hintsPlaced + s1
    requires b2.hintsToPlace == b1.hintsToPlace - |s2| && b2.hintsPlaced == b1.hintsPlaced + s2
    ensures b2.hintsToPlace == b.hintsToPlace - |s1 + s2| && b2.hintsPlaced == b.hintsPlaced + (s1 + s2)
  {
  }

  /** After handle_hints with at least one hint, no row or column whose counter is 0
      has an unknown cell. */
  lemma {:induction false} HandleHintsFilled(b: BoardData, hs: seq<Hint>)
    requires hs != [] && HandleHints(b, hs).Some?
    ensures LinesFilled(HandleHints(b, hs).value)
    decreases |hs|
  {
    var b1 := HintStep(b, hs[0]).value;
    if hs[1..] == [] {
      FillWatersEffect(b1);
    } else {
      HandleHintsFilled(FillWaters(b1), hs[1..]);
    }
  }

  /** insert_value: one piece (or water) at p, then fill_waters; any other value only
      fills the waters. */
  function InsertValue(b: BoardData, p: Coord, v: Cell): BoardData
    requires InGrid(p)
  {
    var b1 := if IsShip(v) then PlacePiece(b, p, v) else if v == Water then InsertWater(b, p) else b;
    FillWaters(b1)
  }

  /** insert_value leaves v in its cell and no unknown cell in a line whose counter
      is 0. */
  lemma InsertValueCell(b: BoardData, p: Coord, v: Cell)
    requires InGrid(p)
    ensures v != Unknown ==> At(InsertValue(b, p, v).matrix, p) == v
    ensures LinesFilled(InsertValue(b, p, v))
  {
    var b1 := if IsShip(v) then PlacePiece(b, p, v) else if v == Water then InsertWater(b, p) else b;
    FillWatersEffect(b1);
  }

  /** insert_value takes one from pieces_left for a ship piece; a circle also takes one
      submarine, so pieces_left stays equal to the cells the inventory holds. */
  lemma InsertValueCounts(b: BoardData, p: Coord, v: Cell)
    requires InGrid(p)
    ensures InsertValue(b, p, v).piecesLeft == b.piecesLeft - (if IsShip(v) then 1 else 0)
    ensures PiecesCounted(b) && (v == Circle || !IsShip(v)) ==> PiecesCounted(InsertValue(b, p, v))
  {
    var b1 := if IsShip(v) then PlacePiece(b, p, v) else if v == Water then InsertWater(b, p) else b;
    FirstStepCounts(b, p, v);
    assert SameCounts(b1, FillWaters(b1));
  }

  /** The same counts before insert_value's fill_waters. */
  lemma FirstStepCounts(b: BoardData, p: Coord, v: Cell)
    requires InGrid(p)
    ensures var b1 := if IsShip(v) then PlacePiece(b, p, v) else if v == Water then InsertWater(b, p) else b;
      && b1.piecesLeft == b.piecesLeft - (if IsShip(v) then 1 else 0)
      && (PiecesCounted(b) && (v == Circle || !IsShip(v)) ==> PiecesCounted(b1))
  {
  }

  // ---- the goal test ----

  /** is_complete: no ship of any length is left to place. */
  predicate IsComplete(b: BoardData) {
    forall k :: k in b.ships ==> b.ships[k] == 0
  }

  /** all_hints_placed, in the source's order: Some(false) at the first hint whose cell
      holds another piece, None (the source's AttributeError on `0.upper()`) at the first
      hint whose cell is still unknown, Some(true) if every hint matches. The source's
      second test compares a lower-case cell with an upper-case hint and never fires, so
      the call changes nothing. A position off the board gives None as well. */
  function HintsMatch(m: Matrix, hs: seq<Hint>): Option<bool>
    decreases |hs|
  {
    if hs == [] then Some(true)
    else if !InGrid(hs[0].pos) || At(m, hs[0].pos) == Unknown then None
    else if At(m, hs[0].pos) != hs[0].kind then Some(false)
    else HintsMatch(m, hs[1..])
  }

  /** goal_test: is_complete() and all_hints_placed(), with Python's short circuit. */
  function GoalTest(b: BoardData, hs: seq<Hint>): Option<bool> {
    if !IsComplete(b) then Some(false) else HintsMatch(b.matrix, hs)
  }

  /** Every hint's cell holds the hint's piece. */
  ghost predicate HintsHold(m: Matrix, hs: seq<Hint>) {
    forall i :: 0 <= i < |hs| ==> InGrid(hs[i].pos) && At(m, hs[i].pos) == hs[i].kind
  }

  lemma {:induction false} HintsMatchMeaning(m: Matrix, hs: seq<Hint>)
    ensures HintsMatch(m, hs) == Some(true) <==> HintsHold(m, hs) && forall i :: 0 <= i < |hs| ==> hs[i].kind != Unknown
    ensures (forall i :: 0 <= i < |hs| ==> InGrid(hs[i].pos) && At(m, hs[i].pos) != Unknown) ==>
            HintsMatch(m, hs).Some?
    decreases |hs|
  {
    if hs != [] {
      HintsMatchMeaning(m, hs[1..]);
      assert forall i :: 1 <= i < |hs| ==> hs[i] == hs[1..][i - 1];
    }
  }

  /** The goal test succeeds exactly when the inventory is empty and every hint's cell
      holds its piece; it gives an answer whenever no hint's cell is unknown. */
  lemma GoalTestMeaning(b: BoardData, hs: seq<Hint>)
    ensures GoalTest(b, hs) == Some(true) <==>
            IsComplete(b) && HintsHold(b.matrix, hs) && forall i :: 0 <= i < |hs| ==> hs[i].kind != Unknown
    ensures (forall i :: 0 <= i < |hs| ==> InGrid(hs[i].pos) && At(b.matrix, hs[i].pos) != Unknown) ==>
            GoalTest(b, hs).Some?
  {
    HintsMatchMeaning(b.matrix, hs);
  }

  /** When the board is complete with pieces_left kept exact, no piece is left. */
  lemma CompleteHasNoPieces(b: BoardData)
    requires PiecesCounted(b) && IsComplete(b)
    ensures b.piecesLeft == 0
  {
    assert 1 in b.ships && 2 in b.ships && 3 in b.ships && 4 in b.ships;
  }
}
