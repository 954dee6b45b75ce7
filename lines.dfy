/** The row and column counters as the source uses them: each counter is the puzzle's
    target for its line minus the ship cells already placed in that line. Result keeps
    this; a clue deduction on a cell that already holds its piece does not. */
module Lines {
  import opened Cells
  import opened Waters
  import opened Pieces
  import opened Placement
  import opened Hints

  /** The number of ship pieces in a line. */
  function ShipCells(s: seq<Cell>): (n: nat)
    ensures n <= |s|
  {
    if s == [] then 0 else (if IsShip(s[0]) then 1 else 0) + ShipCells(s[1..])
  }

  /** Every row_values[i] and col_values[i] is the puzzle's target for that line minus
      the ship cells it holds. */
  predicate LinesCounted(b: BoardData, rowTarget: Counters, colTarget: Counters) {
    forall i :: 0 <= i < 10 ==>
      && b.rows[i] == rowTarget[i] - ShipCells(b.matrix[i])
      && b.cols[i] == colTarget[i] - ShipCells(Column(b.matrix, i))
  }

  /** Cells lo..hi-1 of a line become ship pieces and no other cell changes whether it
      holds one: the line gains hi - lo ship cells. */
  lemma {:induction false} ShipCellsRange(s: seq<Cell>, s': seq<Cell>, lo: int, hi: int)
    requires 0 <= lo <= hi <= |s| == |s'|
    requires forall k :: 0 <= k < |s| ==> (IsShip(s'[k]) <==> IsShip(s[k]) || lo <= k < hi)
    requires forall k :: lo <= k < hi ==> !IsShip(s[k])
    ensures ShipCells(s') == ShipCells(s) + (hi - lo)
  {
    if s != [] {
      var lo', hi' := if lo > 0 then lo - 1 else 0, if hi > 0 then hi - 1 else 0;
      assert forall k :: 0 <= k < |s| - 1 ==> s[1..][k] == s[k + 1] && s'[1..][k] == s'[k + 1];
      ShipCellsRange(s[1..], s'[1..], lo', hi');
    }
  }

  /** A line whose cells only lose ship pieces has no more ship cells; one fewer at
      least if the cell at k0 loses its piece. */
  lemma {:induction false} ShipCellsLost(s: seq<Cell>, s': seq<Cell>, k0: int)
    requires |s| == |s'| && -1 <= k0 < |s|
    requires forall k :: 0 <= k < |s| ==> IsShip(s'[k]) ==> IsShip(s[k])
    requires k0 >= 0 ==> IsShip(s[k0]) && !IsShip(s'[k0])
    ensures ShipCells(s') + (if k0 >= 0 then 1 else 0) <= ShipCells(s)
  {
    if s != [] {
      assert forall k :: 0 <= k < |s| - 1 ==> s[1..][k] == s[k + 1] && s'[1..][k] == s'[k + 1];
      ShipCellsLost(s[1..], s'[1..], if k0 > 0 then k0 - 1 else -1);
    }
  }

  lemma {:induction false} NoShipCells(s: seq<Cell>)
    requires forall k :: 0 <= k < |s| ==> !IsShip(s[k])
    ensures ShipCells(s) == 0
  {
    if s != [] {
      assert forall k :: 0 <= k < |s| - 1 ==> s[1..][k] == s[k + 1];
      NoShipCells(s[1..]);
    }
  }

  /** Every cell holds a ship piece exactly when it did before. */
  ghost predicate ShipsKept(m: Matrix, m': Matrix) {
    forall q :: InGrid(q) ==> (IsShip(At(m', q)) <==> IsShip(At(m, q)))
  }

  /** With the same ship cells and the same counters, the invariant holds after exactly
      when it held before. */
  lemma KeptLines(b: BoardData, b': BoardData, rt: Counters, ct: Counters)
    requires ShipsKept(b.matrix, b'.matrix) && b'.rows == b.rows && b'.cols == b.cols
    ensures LinesCounted(b', rt, ct) <==> LinesCounted(b, rt, ct)
  {
    forall i | 0 <= i < 10
      ensures ShipCells(b'.matrix[i]) == ShipCells(b.matrix[i])
      ensures ShipCells(Column(b'.matrix, i)) == ShipCells(Column(b.matrix, i))
    {
      assert forall k :: 0 <= k < 10 ==> b.matrix[i][k] == At(b.matrix, (i, k)) && b'.matrix[i][k] == At(b'.matrix, (i, k));
      ShipCellsRange(b.matrix[i], b'.matrix[i], 0, 0);
      ShipCellsRange(Column(b.matrix, i), Column(b'.matrix, i), 0, 0);
    }
  }

  /** A new board holds no ship piece, so its counters are the puzzle's targets. */
  lemma NewBoardLines(totalHints: int, row: Counters, col: Counters)
    ensures LinesCounted(NewBoard(totalHints, row, col), row, col)
  {
    var m := NewBoard(totalHints, row, col).matrix;
    forall i | 0 <= i < 10 ensures ShipCells(m[i]) == 0 && ShipCells(Column(m, i)) == 0 {
      assert forall k :: 0 <= k < 10 ==> m[i][k] == At(m, (i, k));
      NoShipCells(m[i]);
      NoShipCells(Column(m, i));
    }
  }

  /** fill_waters only turns unknown cells into water and changes no counter. */
  lemma FillWatersLines(b: BoardData, rt: Counters, ct: Counters)
    ensures LinesCounted(FillWaters(b), rt, ct) <==> LinesCounted(b, rt, ct)
  {
    KeptLines(b, FillWaters(b), rt, ct);
  }

  // ---- placing a ship ----

  /** On a clear span, neither the ship's cells nor the band around them hold a piece. */
  lemma SpanClearAt(m: Matrix, o: Orientation, r: int, c: int, len: int, q: Coord)
    requires 1 <= len <= 4 && ShipFits(o, r, c, len) && SpanClear(m, o, r, c, len) && InGrid(q)
    ensures InSpan(o, r, c, 0, len, q) || InBand(o, r, c, 0, len, q) ==> !IsShip(At(m, q))
  {
    var start := Along(o, (r, c));
    var k := if Along(o, q) < start then 0 else if Along(o, q) >= start + len then len - 1 else Along(o, q) - start;
    if InSpan(o, r, c, 0, len, q) {
      assert q == CellAt(o, r, c, k);
    } else if InBand(o, r, c, 0, len, q) {
      assert IsNeighbour(CellAt(o, r, c, k), q);
    }
  }

  /** Inserting a ship on a clear span: a cell holds a ship piece afterwards exactly when
      it did before or it is a cell of the ship, and the ship's cells held none. */
  lemma InsertShipShipCell(b: BoardData, o: Orientation, r: int, c: int, len: int, q: Coord)
    requires 1 <= len <= 4 && ShipFits(o, r, c, len) && SpanClear(b.matrix, o, r, c, len) && InGrid(q)
    ensures IsShip(At(InsertShip(b, o, r, c, len).matrix, q)) <==> IsShip(At(b.matrix, q)) || InSpan(o, r, c, 0, len, q)
    ensures InSpan(o, r, c, 0, len, q) ==> !IsShip(At(b.matrix, q))
  {
    InsertShipCell(b, o, r, c, len, q);
    SpanClearAt(b.matrix, o, r, c, len, q);
  }

  /** The ship's cells in row i are columns lo..hi-1 of that row, and likewise for
      column i; their number is what insert_ship_* takes from the line's counter. */
  lemma LineSpan(o: Orientation, r: int, c: int, len: int, i: int)
    requires 1 <= len <= 4 && ShipFits(o, r, c, len) && 0 <= i < 10
    ensures var (lo, hi) := if o == Horizontal then (if i == r then (c, c + len) else (0, 0))
                            else (if r <= i < r + len then (c, c + 1) else (0, 0));
      && 0 <= lo <= hi <= 10 && hi - lo == RowHits(o, r, c, 0, len, i)
      && forall k :: 0 <= k < 10 ==> (InSpan(o, r, c, 0, len, (i, k)) <==> lo <= k < hi)
    ensures var (lo, hi) := if o == Vertical then (if i == c then (r, r + len) else (0, 0))
                            else (if c <= i < c + len then (r, r + 1) else (0, 0));
      && 0 <= lo <= hi <= 10 && hi - lo == ColHits(o, r, c, 0, len, i)
      && forall k :: 0 <= k < 10 ==> (InSpan(o, r, c, 0, len, (k, i)) <==> lo <= k < hi)
  {
  }

  /** Given the cells where ship pieces appear, row i gains its share of the ship. */
  lemma RowGains(m: Matrix, m': Matrix, o: Orientation, r: int, c: int, len: int, i: int)
    requires 1 <= len <= 4 && ShipFits(o, r, c, len) && 0 <= i < 10
    requires forall q :: InGrid(q) ==> (IsShip(At(m', q)) <==> IsShip(At(m, q)) || InSpan(o, r, c, 0, len, q))
    requires forall q :: InGrid(q) && InSpan(o, r, c, 0, len, q) ==> !IsShip(At(m, q))
    ensures ShipCells(m'[i]) == ShipCells(m[i]) + RowHits(o, r, c, 0, len, i)
  {
    LineSpan(o, r, c, len, i);
    var (lo, hi) := if o == Horizontal then (if i == r then (c, c + len) else (0, 0))
                    else (if r <= i < r + len then (c, c + 1) else (0, 0));
    assert forall k :: 0 <= k < 10 ==> m[i][k] == At(m, (i, k)) && m'[i][k] == At(m', (i, k));
    ShipCellsRange(m[i], m'[i], lo, hi);
  }

  /** The same for column i. */
  lemma ColGains(m: Matrix, m': Matrix, o: Orientation, r: int, c: int, len: int, i: int)
    requires 1 <= len <= 4 && ShipFits(o, r, c, len) && 0 <= i < 10
    requires forall q :: InGrid(q) ==> (IsShip(At(m', q)) <==> IsShip(At(m, q)) || InSpan(o, r, c, 0, len, q))
    requires forall q :: InGrid(q) && InSpan(o, r, c, 0, len, q) ==> !IsShip(At(m, q))
    ensures ShipCells(Column(m', i)) == ShipCells(Column(m, i)) + ColHits(o, r, c, 0, len, i)
  {
    LineSpan(o, r, c, len, i);
    var (lo, hi) := if o == Vertical then (if i == c then (r, r + len) else (0, 0))
                    else (if c <= i < c + len then (r, r + 1) else (0, 0));
    ShipCellsRange(Column(m, i), Column(m', i), lo, hi);
  }

  /** A ship placed on a clear span keeps every counter equal to its target minus the
      ship cells of its line. */
  lemma InsertShipLines(b: BoardData, o: Orientation, r: int, c: int, len: int, rt: Counters, ct: Counters)
    requires 1 <= len <= 4 && ShipFits(o, r, c, len) && SpanClear(b.matrix, o, r, c, len)
    requires LinesCounted(b, rt, ct)
    ensures LinesCounted(InsertShip(b, o, r, c, len), rt, ct)
  {
    var b' := InsertShip(b, o, r, c, len);
    forall q | InGrid(q)
      ensures IsShip(At(b'.matrix, q)) <==> IsShip(At(b.matrix, q)) || InSpan(o, r, c, 0, len, q)
      ensures InSpan(o, r, c, 0, len, q) ==> !IsShip(At(b.matrix, q))
    {
      InsertShipShipCell(b, o, r, c, len, q);
    }
    InsertShipCounts(b, o, r, c, len);
    forall i | 0 <= i < 10
      ensures b'.rows[i] == rt[i] - ShipCells(b'.matrix[i])
      ensures b'.cols[i] == ct[i] - ShipCells(Column(b'.matrix, i))
    {
      RowGains(b.matrix, b'.matrix, o, r, c, len, i);
      ColGains(b.matrix, b'.matrix, o, r, c, len, i);
    }
  }

  /** The result of every action actions offers keeps every counter equal to its target
      minus the ship cells of its line. */
  lemma ResultKeepsLines(b: BoardData, a: Action, rt: Counters, ct: Counters)
    requires a in Actions(b) && LinesCounted(b, rt, ct)
    ensures ShipFits(a.o, a.pos.0, a.pos.1, a.len) && LinesCounted(Result(b, a), rt, ct)
  {
    ActionFits(b, a);
    InsertShipLines(b, a.o, a.pos.0, a.pos.1, a.len, rt, ct);
    FillWatersLines(InsertShip(b, a.o, a.pos.0, a.pos.1, a.len), rt, ct);
  }

  // ---- a clue on a cell that already holds its piece ----

  /** A clue deduction as written never adds a ship piece, and once it retracts a line
      the clue cell is unknown. */
  lemma ClueWatersLoses(b: BoardData, p: Coord, v: Cell, q: Coord)
    requires ClueFits(p, v) && InGrid(q)
    ensures IsShip(At(ClueWaters(b, p, v).matrix, q)) ==> IsShip(At(b.matrix, q))
    ensures q == p && (b.cols[p.1] == 1 || b.rows[p.0] == 1) ==> At(ClueWaters(b, p, v).matrix, q) == Unknown
  {
    ClueWatersCell(b, p, v, q);
  }

  /** As written, a clue deduction whose line counter is 1 resets the clue cell to
      unknown even when the cell already holds the clue's piece: the piece is erased
      while no counter changes, so the invariant breaks. */
  lemma ClueErasesPiece(b: BoardData, p: Coord, v: Cell, rt: Counters, ct: Counters)
    requires ClueFits(p, v) && At(b.matrix, p) == v
    requires b.cols[p.1] == 1 || b.rows[p.0] == 1
    ensures At(ClueWaters(b, p, v).matrix, p) == Unknown
    ensures LinesCounted(b, rt, ct) ==> !LinesCounted(ClueWaters(b, p, v), rt, ct)
  {
    var m' := ClueWaters(b, p, v).matrix;
    ClueWatersCounts(b, p, v);
    var s, s' := b.matrix[p.0], m'[p.0];
    forall k | 0 <= k < 10 ensures IsShip(s'[k]) ==> IsShip(s[k]) {
      ClueWatersLoses(b, p, v, (p.0, k));
    }
    ClueWatersLoses(b, p, v, p);
    ShipCellsLost(s, s', p.1);
  }

  /** handle_hints on a hint that succeeds goes on with the rest from the filled board. */
  lemma HandleHintsStep(b: BoardData, hs: seq<Hint>)
    requires hs != [] && HintStep(b, hs[0]).Some?
    ensures HandleHints(b, hs) == HandleHints(FillWaters(HintStep(b, hs[0]).value), hs[1..])
  {
  }

  /** On a board with no piece placed, every span on the board is clear. */
  lemma BlankSpanClear(m: Matrix, o: Orientation, r: int, c: int, len: int)
    requires forall q :: InGrid(q) ==> At(m, q) == Unknown
    requires 1 <= len <= 4 && ShipFits(o, r, c, len)
    ensures SpanClear(m, o, r, c, len)
  {
  }

  /** The destroyer of the scenario below, placed on a board with no piece: the bottom
      piece at (4, 3), row 4 wanting one cell, column 3 none, the invariant kept. */
  lemma DestroyerPlaced(b: BoardData, rt: Counters, ct: Counters)
    requires forall q :: InGrid(q) ==> At(b.matrix, q) == Unknown
    requires b.cols[3] == 2 && b.rows[4] == 2 && LinesCounted(b, rt, ct)
    ensures var b1 := InsertShip(b, Vertical, 3, 3, 2);
      && LinesCounted(b1, rt, ct) && At(b1.matrix, (4, 3)) == Bottom
      && b1.rows[4] == 1 && b1.cols[3] == 0
  {
    BlankSpanClear(b.matrix, Vertical, 3, 3, 2);
    InsertShipLines(b, Vertical, 3, 3, 2, rt, ct);
    ShipHintCell(b, Vertical, 3, 3, 2, 1);
    InsertShipLine(b, Vertical, 3, 3, 2, 4);
    InsertShipLine(b, Vertical, 3, 3, 2, 3);
  }

  /** handle_hints on a single hint that succeeds is that hint followed by fill_waters. */
  lemma HandleHintsSingle(b: BoardData, h: Hint)
    requires HintStep(b, h).Some?
    ensures HandleHints(b, [h]) == Some(FillWaters(HintStep(b, h).value))
  {
    HandleHintsStep(b, [h]);
    assert [h][1..] == [];
  }

  /** The first hint of the scenario below: the "T" hint at (3, 3) with column 3 wanting
      two cells completes a destroyer, leaving the bottom piece at (4, 3), row 4 wanting
      one cell and column 3 none. */
  lemma TopHintPlacesDestroyer(b: BoardData, rt: Counters, ct: Counters)
    requires forall q :: InGrid(q) ==> At(b.matrix, q) == Unknown
    requires b.cols[3] == 2 && b.rows[4] == 2 && LinesCounted(b, rt, ct)
    ensures var b2 := FillWaters(InsertShip(b, Vertical, 3, 3, 2));
      && HandleHints(b, [Hint((3, 3), Top)]) == Some(b2)
      && HandleHints(b, [Hint((3, 3), Top), Hint((4, 3), Bottom)]) == HandleHints(b2, [Hint((4, 3), Bottom)])
      && LinesCounted(b2, rt, ct) && At(b2.matrix, (4, 3)) == Bottom
      && b2.rows[4] == 1 && b2.cols[3] == 0
  {
    var h1, h2 := Hint((3, 3), Top), Hint((4, 3), Bottom);
    var b1 := InsertShip(b, Vertical, 3, 3, 2);
    assert HintMove(b, h1) == Ship(Vertical, 3, 3, 2, 0);
    assert HintStep(b, h1) == Some(b1);
    HandleHintsStep(b, [h1]);
    HandleHintsStep(b, [h1, h2]);
    assert [h1, h2][1..] == [h2];
    DestroyerPlaced(b, rt, ct);
    FillWatersLines(b1, rt, ct);
  }

  /** The clue deduction of the second hint, then fill_waters: the bottom piece is
      erased, watered, and the invariant is lost. */
  lemma BottomClueErases(b: BoardData, rt: Counters, ct: Counters)
    requires LinesCounted(b, rt, ct) && At(b.matrix, (4, 3)) == Bottom
    requires b.rows[4] == 1 && b.cols[3] == 0
    ensures var b4 := FillWaters(ClueWaters(b, (4, 3), Bottom));
      !LinesCounted(b4, rt, ct) && At(b4.matrix, (4, 3)) == Water
  {
    var b3 := ClueWaters(b, (4, 3), Bottom);
    ClueErasesPiece(b, (4, 3), Bottom, rt, ct);
    ClueWatersCounts(b, (4, 3), Bottom);
    FillWatersLines(b3, rt, ct);
  }

  /** The second hint: on such a board the "B" hint at (4, 3) takes the clue branch,
      which erases the piece; fill_waters then waters the cell. */
  lemma BottomHintErases(b: BoardData, rt: Counters, ct: Counters)
    requires LinesCounted(b, rt, ct) && At(b.matrix, (4, 3)) == Bottom
    requires b.rows[4] == 1 && b.cols[3] == 0
    ensures var r := HandleHints(b, [Hint((4, 3), Bottom)]);
      r.Some? && !LinesCounted(r.value, rt, ct) && At(r.value.matrix, (4, 3)) == Water
  {
    var h2 := Hint((4, 3), Bottom);
    assert HintMove(b, h2) == Clue(Bottom);
    assert HintStep(b, h2) == Some(ClueWaters(b, (4, 3), Bottom));
    HandleHintsSingle(b, h2);
    BottomClueErases(b, rt, ct);
  }

  /** The erasure as handle_hints meets it: with column 3 wanting two cells and row 4
      two, a "T" hint at (3, 3) completes a destroyer down to (4, 3). Column 3 is then
      done, so the "B" hint at (4, 3) takes the clue branch; row 4 now wants one cell,
      so the clue retracts row 4 and erases the bottom piece, which fill_waters then
      turns into water. */
  lemma HintsEraseBottom(b: BoardData, rt: Counters, ct: Counters)
    requires forall q :: InGrid(q) ==> At(b.matrix, q) == Unknown
    requires b.cols[3] == 2 && b.rows[4] == 2 && LinesCounted(b, rt, ct)
    ensures var first := HandleHints(b, [Hint((3, 3), Top)]);
      && first.Some? && LinesCounted(first.value, rt, ct) && At(first.value.matrix, (4, 3)) == Bottom
    ensures var both := HandleHints(b, [Hint((3, 3), Top), Hint((4, 3), Bottom)]);
      && both.Some? && !LinesCounted(both.value, rt, ct) && At(both.value.matrix, (4, 3)) == Water
  {
    assert ShipFits(Vertical, 3, 3, 2);
    TopHintPlacesDestroyer(b, rt, ct);
    BottomHintErases(FillWaters(InsertShip(b, Vertical, 3, 3, 2)), rt, ct);
  }

  /** The unconditional and the test-then-water stages of a clue deduction change no
      ship piece when no ship lies where an end clue waters unconditionally. */
  lemma ClueFirstStages(b: BoardData, p: Coord, v: Cell)
    requires ClueFits(p, v)
    requires v != Middle ==> forall q :: IsTarget(p, v, q) ==> !IsShip(At(b.matrix, q))
    ensures var b2 := FloodFree(ClueNeighbours(b, p, v), Beyond(p, v));
      ShipsKept(b.matrix, b2.matrix) && SameCounts(b, b2) && At(b2.matrix, p) == At(b.matrix, p)
  {
    var b2 := FloodFree(ClueNeighbours(b, p, v), Beyond(p, v));
    forall q | InGrid(q) ensures IsShip(At(b2.matrix, q)) <==> IsShip(At(b.matrix, q)) {
      ClueBeyondStage(b, p, v, q);
    }
    ClueBeyondStage(b, p, v, p);
  }

  /** On an unknown clue cell, the retractions change no ship piece and leave the cell
      unknown. */
  lemma RetractKeeps(b: BoardData, p: Coord)
    requires InGrid(p) && At(b.matrix, p) == Unknown
    ensures var b' := RetractCol(b, p);
      ShipsKept(b.matrix, b'.matrix) && SameCounts(b, b') && At(b'.matrix, p) == Unknown
    ensures var b' := RetractRow(b, p);
      ShipsKept(b.matrix, b'.matrix) && SameCounts(b, b') && At(b'.matrix, p) == Unknown
  {
  }

  /** A clue deduction on an unknown cell, the case handle_hints is written for, keeps the
      counter invariant, provided no ship lies where an end clue waters unconditionally. */
  lemma ClueWatersLines(b: BoardData, p: Coord, v: Cell, rt: Counters, ct: Counters)
    requires ClueFits(p, v) && At(b.matrix, p) == Unknown
    requires v != Middle ==> forall q :: IsTarget(p, v, q) ==> !IsShip(At(b.matrix, q))
    ensures LinesCounted(ClueWaters(b, p, v), rt, ct) <==> LinesCounted(b, rt, ct)
  {
    var b2 := FloodFree(ClueNeighbours(b, p, v), Beyond(p, v));
    ClueFirstStages(b, p, v);
    var b3 := RetractCol(b2, p);
    RetractKeeps(b2, p);
    RetractKeeps(b3, p);
    KeptLines(b, b2, rt, ct);
    KeptLines(b2, b3, rt, ct);
    KeptLines(b3, RetractRow(b3, p), rt, ct);
  }

  /** One hint as evidently intended: a clue hint whose cell already holds its piece (a
      ship an earlier hint completed) draws no deductions, because the retraction of a
      line whose counter is 1 assumes the clue's piece is not counted yet. Every other
      hint is handled as the source does. */
  function FixedHintStep(b: BoardData, h: Hint): Option<BoardData> {
    if h.kind != Unknown && InGrid(h.pos) && HintMove(b, h).Clue? && At(b.matrix, h.pos) == h.kind
    then Some(b)
    else HintStep(b, h)
  }

  /** handle_hints with the corrected hint step. */
  function FixedHandleHints(b: BoardData, hs: seq<Hint>): Option<BoardData>
    decreases |hs|
  {
    if hs == [] then Some(b)
    else
      match FixedHintStep(b, hs[0])
      case None => None
      case Some(b1) => FixedHandleHints(FillWaters(b1), hs[1..])
  }

  /** The corrected step on a clue hint keeps the counter invariant: it leaves a cell
      that holds its piece alone, and on an unknown cell it is the source's deduction. */
  lemma FixedClueStepLines(b: BoardData, h: Hint, rt: Counters, ct: Counters)
    requires InGrid(h.pos) && HintMove(b, h).Clue? && ClueFits(h.pos, h.kind) && LinesCounted(b, rt, ct)
    requires || At(b.matrix, h.pos) == h.kind
             || (&& At(b.matrix, h.pos) == Unknown
                 && (h.kind != Middle ==> forall q :: IsTarget(h.pos, h.kind, q) ==> !IsShip(At(b.matrix, q))))
    ensures FixedHintStep(b, h).Some? && LinesCounted(FixedHintStep(b, h).value, rt, ct)
    ensures At(b.matrix, h.pos) == h.kind ==> FixedHintStep(b, h) == Some(b)
    ensures At(b.matrix, h.pos) == Unknown ==> FixedHintStep(b, h) == Some(ClueWaters(b, h.pos, h.kind))
  {
    if At(b.matrix, h.pos) == Unknown {
      ClueWatersLines(b, h.pos, h.kind, rt, ct);
    }
  }

  /** The corrected handle_hints on a hint that succeeds goes on from the filled board. */
  lemma FixedHandleHintsStep(b: BoardData, hs: seq<Hint>)
    requires hs != [] && FixedHintStep(b, hs[0]).Some?
    ensures FixedHandleHints(b, hs) == FixedHandleHints(FillWaters(FixedHintStep(b, hs[0]).value), hs[1..])
  {
  }

  /** The scenario of HintsEraseBottom under the corrected step: the "B" hint at (4, 3)
      finds its piece already placed and changes nothing, so both hints together end
      exactly as the "T" hint alone, with the bottom piece in place and the invariant
      kept. */
  lemma FixedHintsKeepBottom(b: BoardData, rt: Counters, ct: Counters)
    requires forall q :: InGrid(q) ==> At(b.matrix, q) == Unknown
    requires b.cols[3] == 2 && b.rows[4] == 2 && LinesCounted(b, rt, ct)
    ensures FixedHandleHints(b, [Hint((3, 3), Top), Hint((4, 3), Bottom)]) == HandleHints(b, [Hint((3, 3), Top)])
    ensures var both := FixedHandleHints(b, [Hint((3, 3), Top), Hint((4, 3), Bottom)]);
      && both.Some? && LinesCounted(both.value, rt, ct) && At(both.value.matrix, (4, 3)) == Bottom
  {
    assert ShipFits(Vertical, 3, 3, 2);
    TopHintPlacesDestroyer(b, rt, ct);
    FixedTopFirst(b);
    var b1 := InsertShip(b, Vertical, 3, 3, 2);
    FillWatersIdempotent(b1);
    FixedBottomKept(FillWaters(b1));
  }

  /** The first hint under the corrected step: a "T" hint completing a destroyer is
      handled as the source does. */
  lemma FixedTopFirst(b: BoardData)
    requires b.cols[3] == 2
    ensures FixedHandleHints(b, [Hint((3, 3), Top), Hint((4, 3), Bottom)]) ==
      FixedHandleHints(FillWaters(InsertShip(b, Vertical, 3, 3, 2)), [Hint((4, 3), Bottom)])
  {
    var h1, h2 := Hint((3, 3), Top), Hint((4, 3), Bottom);
    assert HintMove(b, h1) == Ship(Vertical, 3, 3, 2, 0);
    assert FixedHintStep(b, h1) == Some(InsertShip(b, Vertical, 3, 3, 2));
    FixedHandleHintsStep(b, [h1, h2]);
    assert [h1, h2][1..] == [h2];
  }

  /** The second hint under the corrected step, on the board the first one leaves. */
  lemma FixedBottomKept(b: BoardData)
    requires At(b.matrix, (4, 3)) == Bottom && b.rows[4] == 1 && b.cols[3] == 0
    ensures FixedHandleHints(b, [Hint((4, 3), Bottom)]) == Some(FillWaters(b))
  {
    var h2 := Hint((4, 3), Bottom);
    assert HintMove(b, h2) == Clue(Bottom);
    assert FixedHintStep(b, h2) == Some(b);
    FixedHandleHintsStep(b, [h2]);
    assert [h2][1..] == [];
  }
}
