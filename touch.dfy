/** The rule that ships never touch, not even diagonally, as a property of the board:
    a new board has it, fill_waters keeps it, and so does the result of every action
    actions offers, and so does handle_hints. */
module Touch {
  import opened Cells
  import opened Waters
  import opened Pieces
  import opened Placement
  import opened Hints

  /** Two neighbouring ship pieces always belong to one ship: each continues into the
      other, so they are orthogonal neighbours and neither is a circle. */
  ghost predicate NoTouch(m: Matrix) {
    forall p, q :: InGrid(p) && InGrid(q) && IsNeighbour(p, q) && IsShip(At(m, p)) && IsShip(At(m, q)) ==>
      Continues(p, At(m, p), q) && Continues(q, At(m, q), p)
  }

  /** A new board has no ship piece, so nothing touches. */
  lemma NewBoardNoTouch(totalHints: int, row: Counters, col: Counters)
    ensures NoTouch(NewBoard(totalHints, row, col).matrix)
  {
  }

  /** A step that adds no ship piece (every piece on the new board was there before)
      keeps the rule. */
  lemma NoNewPieces(m: Matrix, m': Matrix)
    requires forall q :: InGrid(q) && IsShip(At(m', q)) ==> At(m', q) == At(m, q)
    ensures NoTouch(m) ==> NoTouch(m')
  {
  }

  /** fill_waters changes no ship piece, so the rule holds after it exactly when it held
      before. */
  lemma FillWatersNoTouch(b: BoardData)
    ensures NoTouch(FillWaters(b).matrix) <==> NoTouch(b.matrix)
  {
    var m' := FillWaters(b).matrix;
    forall q | InGrid(q) && (IsShip(At(b.matrix, q)) || IsShip(At(m', q)))
      ensures At(m', q) == At(b.matrix, q)
    {
    }
    NoNewPieces(b.matrix, m');
    NoNewPieces(m', b.matrix);
  }

  /** insert_water keeps the rule. */
  lemma InsertWaterNoTouch(b: BoardData, p: Coord)
    requires InGrid(p)
    ensures NoTouch(b.matrix) ==> NoTouch(InsertWater(b, p).matrix)
  {
    NoNewPieces(b.matrix, InsertWater(b, p).matrix);
  }

  /** insert_circle keeps the rule: it waters all eight neighbours of the circle. */
  lemma CircleNoTouch(b: BoardData, p: Coord)
    requires InGrid(p) && NoTouch(b.matrix)
    ensures NoTouch(PlacePiece(b, p, Circle).matrix)
  {
  }

  /** A clue deduction only waters cells and resets the clue cell, so it keeps the rule. */
  lemma ClueWatersNoTouch(b: BoardData, p: Coord, v: Cell)
    requires ClueFits(p, v)
    ensures NoTouch(b.matrix) ==> NoTouch(ClueWaters(b, p, v).matrix)
  {
    var m' := ClueWaters(b, p, v).matrix;
    forall q | InGrid(q) && IsShip(At(m', q)) ensures At(m', q) == At(b.matrix, q) {
      ClueWatersCell(b, p, v, q);
    }
    NoNewPieces(b.matrix, m');
  }

  /** Two neighbouring cells of a straight ship: the piece in the first continues into
      the second. */
  lemma SpanPairContinues(o: Orientation, r: int, c: int, len: int, p: Coord, q: Coord)
    requires 1 <= len <= 4 && IsNeighbour(p, q)
    requires InSpan(o, r, c, 0, len, p) && InSpan(o, r, c, 0, len, q)
    ensures Continues(p, ShipKind(o, len, Along(o, p) - Along(o, (r, c))), q)
  {
  }

  /** A ship piece next to a cell of a newly inserted ship lies in that ship's box. */
  lemma NeighbourInBand(o: Orientation, r: int, c: int, len: int, p: Coord, q: Coord)
    requires 1 <= len <= 4 && IsNeighbour(p, q) && InSpan(o, r, c, 0, len, p)
    ensures InBand(o, r, c, 0, len, q)
  {
  }

  /** After inserting a ship, a ship piece next to another continues into it: the ship's
      own pieces continue into each other, the box around them is water, and outside
      the box nothing changed. */
  lemma PairAfterInsert(b: BoardData, o: Orientation, r: int, c: int, len: int, p: Coord, q: Coord)
    requires 1 <= len <= 4 && ShipFits(o, r, c, len)
    requires NoTouch(b.matrix) && InGrid(p) && InGrid(q) && IsNeighbour(p, q)
    requires var m' := InsertShip(b, o, r, c, len).matrix;
      IsShip(At(m', p)) && IsShip(At(m', q))
    ensures Continues(p, At(InsertShip(b, o, r, c, len).matrix, p), q)
  {
    InsertShipCell(b, o, r, c, len, p);
    InsertShipCell(b, o, r, c, len, q);
    if InSpan(o, r, c, 0, len, p) {
      NeighbourInBand(o, r, c, len, p, q);
      SpanPairContinues(o, r, c, len, p, q);
    } else if InSpan(o, r, c, 0, len, q) {
      NeighbourInBand(o, r, c, len, q, p);
    }
  }

  /** insert_ship_* keeps the rule wherever the ship lands, because it waters the whole
      box around the ship. */
  lemma InsertShipNoTouch(b: BoardData, o: Orientation, r: int, c: int, len: int)
    requires 1 <= len <= 4 && ShipFits(o, r, c, len)
    requires NoTouch(b.matrix)
    ensures NoTouch(InsertShip(b, o, r, c, len).matrix)
  {
    var m' := InsertShip(b, o, r, c, len).matrix;
    forall p, q | InGrid(p) && InGrid(q) && IsNeighbour(p, q) && IsShip(At(m', p)) && IsShip(At(m', q))
      ensures Continues(p, At(m', p), q) && Continues(q, At(m', q), p)
    {
      PairAfterInsert(b, o, r, c, len, p, q);
      PairAfterInsert(b, o, r, c, len, q, p);
    }
  }

  /** The result of every action actions offers keeps the rule. */
  lemma ResultNoTouch(b: BoardData, a: Action)
    requires a in Actions(b) && NoTouch(b.matrix)
    ensures ShipFits(a.o, a.pos.0, a.pos.1, a.len) && NoTouch(Result(b, a).matrix)
  {
    ActionFits(b, a);
    InsertShipNoTouch(b, a.o, a.pos.0, a.pos.1, a.len);
    FillWatersNoTouch(InsertShip(b, a.o, a.pos.0, a.pos.1, a.len));
  }

  /** One hint of handle_hints keeps the rule: it marks a water or a circle, completes a
      whole ship, or draws a clue's waters. */
  lemma HintStepNoTouch(b: BoardData, h: Hint)
    requires NoTouch(b.matrix) && HintStep(b, h).Some?
    ensures NoTouch(HintStep(b, h).value.matrix)
  {
    if h.kind != Unknown {
      var mv := HintMove(b, h);
      match mv
      case Skip =>
      case Mark(v) =>
        if v == Circle {
          CircleNoTouch(b, h.pos);
        } else {
          InsertWaterNoTouch(b, h.pos);
        }
      case Ship(o, r, c, len, _) =>
        InsertShipNoTouch(b, o, r, c, len);
      case Clue(v) =>
        ClueWatersNoTouch(b, h.pos, v);
    }
  }

  /** handle_hints keeps the rule whenever it succeeds. */
  lemma {:induction false} HandleHintsNoTouch(b: BoardData, hs: seq<Hint>)
    requires NoTouch(b.matrix) && HandleHints(b, hs).Some?
    ensures NoTouch(HandleHints(b, hs).value.matrix)
    decreases |hs|
  {
    if hs != [] {
      HintStepNoTouch(b, hs[0]);
      var b1 := HintStep(b, hs[0]).value;
      FillWatersNoTouch(b1);
      HandleHintsNoTouch(FillWaters(b1), hs[1..]);
    }
  }
}
