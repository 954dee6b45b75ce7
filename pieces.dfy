/** Ship pieces: insert_circle and insert_*_piece (one piece plus the water around it),
    insert_ship_horizontal / insert_ship_vertical (a whole ship), and the clue-driven
    water deductions insert_top_waters ... insert_middle_waters. */
module Pieces {
  import opened Cells
  import opened Waters

  datatype Orientation = Horizontal | Vertical

  /** The orthogonal neighbour(s) of p through which a piece v continues its ship;
      these are the cells the source removes from the list it waters. */
  predicate Continues(p: Coord, v: Cell, q: Coord) {
    match v
    case Top => q == (p.0 + 1, p.1)
    case Bottom => q == (p.0 - 1, p.1)
    case Left => q == (p.0, p.1 + 1)
    case Right => q == (p.0, p.1 - 1)
    case Middle => q.0 == p.0 || q.1 == p.1
    case _ => false
  }

  /** Is q watered when piece v is inserted at p? */
  predicate IsTarget(p: Coord, v: Cell, q: Coord) {
    InGrid(q) && IsNeighbour(p, q) && !Continues(p, v, q)
  }

  function Without(s: seq<Coord>, p: Coord, v: Cell): (r: seq<Coord>)
    ensures forall q :: q in r <==> q in s && !Continues(p, v, q)
  {
    if s == [] then []
    else (if Continues(p, v, s[0]) then [] else [s[0]]) + Without(s[1..], p, v)
  }

  /** get_all_adjacent_coords(p) with the continuation cell(s) of v removed. */
  function Targets(p: Coord, v: Cell): (t: seq<Coord>)
    ensures forall q :: q in t ==> IsTarget(p, v, q)
  {
    Without(AdjacentCoords(p), p, v)
  }

  /** Targets lists exactly the cells IsTarget describes. */
  lemma TargetsExact(p: Coord, v: Cell)
    ensures forall q :: q in Targets(p, v) <==> IsTarget(p, v, q)
  {
    AdjacentCoordsExact(p);
  }

  /** insert_circle, insert_top_piece, ..., insert_middle_piece: write the piece, take one
      from its row and column counters, free_positions and pieces_left (and, for a
      circle, from ships[1]), then water every neighbour except the continuation. */
  function PlacePiece(b: BoardData, p: Coord, v: Cell): (b': BoardData)
    requires InGrid(p) && IsShip(v)
    ensures At(b'.matrix, p) == v
    ensures forall q :: InGrid(q) && q != p ==>
      At(b'.matrix, q) == if IsTarget(p, v, q) then Water else At(b.matrix, q)
    ensures b'.rows == b.rows[p.0 := b.rows[p.0] - 1]
    ensures b'.cols == b.cols[p.1 := b.cols[p.1] - 1]
    ensures b'.ships == if v == Circle then b.ships[1 := b.ships[1] - 1] else b.ships
    ensures b'.piecesLeft == b.piecesLeft - 1
    ensures b'.hintsToPlace == b.hintsToPlace && b'.hintsPlaced == b.hintsPlaced
  {
    TargetsExact(p, v);
    FloodAll(Stamp(b, p, v), Targets(p, v))
  }

  /** A piece insertion takes one free position for the piece and one for each cell it
      waters that was not water yet. */
  lemma PlacePieceFree(b: BoardData, p: Coord, v: Cell)
    requires InGrid(p) && IsShip(v)
    ensures PlacePiece(b, p, v).free == b.free - 1 - |Dry(b.matrix, Targets(p, v))|
  {
    TargetsExact(p, v);
    FloodAllFree(Stamp(b, p, v), Targets(p, v));
    assert Dry(Stamp(b, p, v).matrix, Targets(p, v)) == Dry(b.matrix, Targets(p, v));
  }

  /** The bookkeeping of a piece insertion before its neighbours are watered. */
  function Stamp(b: BoardData, p: Coord, v: Cell): BoardData
    requires InGrid(p)
  {
    b.(matrix := Set(b.matrix, p, v),
       rows := b.rows[p.0 := b.rows[p.0] - 1],
       cols := b.cols[p.1 := b.cols[p.1] - 1],
       ships := if v == Circle then Fewer(b.ships, 1) else b.ships,
       free := b.free - 1,
       piecesLeft := b.piecesLeft - 1)
  }

  /** On an unknown cell with no ship among the cells to be watered, a piece insertion
      keeps free_positions equal to the number of unknown cells. */
  lemma PlacePieceDrift(b: BoardData, p: Coord, v: Cell)
    requires InGrid(p) && IsShip(v) && At(b.matrix, p) == Unknown
    requires forall q :: IsTarget(p, v, q) ==> !IsShip(At(b.matrix, q))
    ensures FreeDrift(PlacePiece(b, p, v)) == FreeDrift(b)
  {
    var b1 := Stamp(b, p, v);
    UnknownCellsSet(b.matrix, p, v);
    assert FreeDrift(b1) == FreeDrift(b);
    var ts := Targets(p, v);
    forall q | q in ts ensures InGrid(q) && !IsShip(At(b1.matrix, q)) {
      assert IsTarget(p, v, q);
      assert At(b1.matrix, q) == At(b.matrix, q);
    }
    FloodAllDrift(b1, ts);
  }

  // ---- whole ships ----

  /** The k-th cell of a ship starting at (r, c). */
  function CellAt(o: Orientation, r: int, c: int, k: int): Coord {
    if o == Horizontal then (r, c + k) else (r + k, c)
  }

  function First(o: Orientation): Cell {
    if o == Horizontal then Left else Top
  }

  function Last(o: Orientation): Cell {
    if o == Horizontal then Right else Bottom
  }

  /** The piece a ship of length len has at offset i. */
  function ShipKind(o: Orientation, len: int, i: int): Cell {
    if len == 1 then Circle
    else if i == 0 then First(o)
    else if i == len - 1 then Last(o)
    else Middle
  }

  /** A ship of length 1..4 at (r, c) lies on the board (the source indexes the matrix
      directly, so a negative index would wrap and a large one would raise). */
  predicate ShipFits(o: Orientation, r: int, c: int, len: int) {
    1 <= len <= 4 ==> InGrid(CellAt(o, r, c, 0)) && InGrid(CellAt(o, r, c, len - 1))
  }

  /** One step along a ship: to the right, or down. */
  function Dir(o: Orientation): (int, int) {
    if o == Horizontal then (0, 1) else (1, 0)
  }

  /** The pieces of a ship of length len at (r, c), in the order the source inserts them. */
  function ShipPieces(o: Orientation, r: int, c: int, len: nat): (ps: seq<(Coord, Cell)>)
    ensures |ps| == len
    ensures forall i :: 0 <= i < len ==> ps[i] == (CellAt(o, r, c, i), ShipKind(o, len, i))
  {
    seq(len, i => (CellAt(o, r, c, i), ShipKind(o, len, i)))
  }

  /** The call sequence of insert_ship_*: starting at (r, c), each piece one step
      further along o; a lone circle, or the first end, middles, and the last end. */
  lemma ShipPiecesShape(o: Orientation, r: int, c: int, len: nat)
    ensures var ps := ShipPieces(o, r, c, len);
      && |ps| == len
      && (len >= 1 ==> ps[0].0 == (r, c))
      && (forall i :: 0 < i < len ==> ps[i].0 == Shift(ps[i - 1].0, Dir(o)))
      && (len == 1 ==> ps[0].1 == Circle)
      && (len >= 2 ==> ps[0].1 == First(o) && ps[len - 1].1 == Last(o))
      && (forall i :: 0 < i < len - 1 ==> ps[i].1 == Middle)
  {
  }

  /** Pieces that insert_value can place: on the board and a ship letter. */
  predicate Placeable(ps: seq<(Coord, Cell)>) {
    forall i :: 0 <= i < |ps| ==> InGrid(ps[i].0) && IsShip(ps[i].1)
  }

  /** The piece insertions of ps, one after the other. */
  function PlaceAll(b: BoardData, ps: seq<(Coord, Cell)>): BoardData
    requires Placeable(ps)
    decreases |ps|
  {
    if ps == [] then b else PlaceAll(PlacePiece(b, ps[0].0, ps[0].1), ps[1..])
  }

  lemma ShipPlaceable(o: Orientation, r: int, c: int, len: int, j: int)
    requires 1 <= len <= 4 && ShipFits(o, r, c, len) && 0 <= j <= len
    ensures Placeable(ShipPieces(o, r, c, len)[j..])
  {
  }

  /** Placing the pieces from the j-th on is placing the j-th, then the rest. */
  lemma PlaceRestStep(b: BoardData, o: Orientation, r: int, c: int, len: int, j: int)
    requires 1 <= len <= 4 && ShipFits(o, r, c, len) && 0 <= j < len
    ensures
      PlaceAll(b, ShipPieces(o, r, c, len)[j..]) ==
      PlaceAll(PlacePiece(b, CellAt(o, r, c, j), ShipKind(o, len, j)), ShipPieces(o, r, c, len)[j + 1..])
  {
    var ps := ShipPieces(o, r, c, len);
    ShipPlaceable(o, r, c, len, j);
    ShipPlaceable(o, r, c, len, j + 1);
    assert ps[j..][0] == ps[j];
    assert ps[j..][1..] == ps[j + 1..];
  }

  /** Once every piece from the 0th to the last is placed, the ship is inserted but for
      its ships[len] -= 1. */
  lemma ShipDone(b: BoardData, b': BoardData, o: Orientation, r: int, c: int, len: int)
    requires 1 <= len <= 4 && ShipFits(o, r, c, len)
    requires
      && Placeable(ShipPieces(o, r, c, len)[0..]) && Placeable(ShipPieces(o, r, c, len)[len..])
      && PlaceAll(b, ShipPieces(o, r, c, len)[0..]) == PlaceAll(b', ShipPieces(o, r, c, len)[len..])
    ensures InsertShip(b, o, r, c, len) == if len == 1 then b' else Sunk(b', len)
  {
    InsertShipIsRest(b, o, r, c, len);
    assert ShipPieces(o, r, c, len)[len..] == [];
  }

  /** Placing a ship's pieces one call at a time, in the source's order, then (for a
      ship longer than one) taking one ship of that length from the inventory, is
      inserting the ship; one lemma per length, one equation per piece call. */
  lemma ShipOfOne(b0: BoardData, b1: BoardData, o: Orientation, r: int, c: int)
    requires ShipFits(o, r, c, 1)
    requires b1 == PlacePiece(b0, CellAt(o, r, c, 0), Circle)
    ensures InsertShip(b0, o, r, c, 1) == b1
  {
    ShipPlaceable(o, r, c, 1, 0);
    ShipPlaceable(o, r, c, 1, 1);
    PlaceRestStep(b0, o, r, c, 1, 0);
    ShipDone(b0, b1, o, r, c, 1);
  }

  lemma ShipOfTwo(b0: BoardData, b1: BoardData, b2: BoardData, o: Orientation, r: int, c: int)
    requires ShipFits(o, r, c, 2)
    requires b1 == PlacePiece(b0, CellAt(o, r, c, 0), First(o))
    requires b2 == PlacePiece(b1, CellAt(o, r, c, 1), Last(o))
    ensures InsertShip(b0, o, r, c, 2) == Sunk(b2, 2)
  {
    ShipPlaceable(o, r, c, 2, 0);
    ShipPlaceable(o, r, c, 2, 2);
    PlaceRestStep(b0, o, r, c, 2, 0);
    PlaceRestStep(b1, o, r, c, 2, 1);
    ShipDone(b0, b2, o, r, c, 2);
  }

  lemma ShipOfThree(b0: BoardData, b1: BoardData, b2: BoardData, b3: BoardData, o: Orientation, r: int, c: int)
    requires ShipFits(o, r, c, 3)
    requires b1 == PlacePiece(b0, CellAt(o, r, c, 0), First(o))
    requires b2 == PlacePiece(b1, CellAt(o, r, c, 1), Middle)
    requires b3 == PlacePiece(b2, CellAt(o, r, c, 2), Last(o))
    ensures InsertShip(b0, o, r, c, 3) == Sunk(b3, 3)
  {
    ShipPlaceable(o, r, c, 3, 0);
    ShipPlaceable(o, r, c, 3, 3);
    PlaceRestStep(b0, o, r, c, 3, 0);
    PlaceRestStep(b1, o, r, c, 3, 1);
    PlaceRestStep(b2, o, r, c, 3, 2);
    ShipDone(b0, b3, o, r, c, 3);
  }

  lemma ShipOfFour(b0: BoardData, b1: BoardData, b2: BoardData, b3: BoardData, b4: BoardData,
                   o: Orientation, r: int, c: int)
    requires ShipFits(o, r, c, 4)
    requires b1 == PlacePiece(b0, CellAt(o, r, c, 0), First(o))
    requires b2 == PlacePiece(b1, CellAt(o, r, c, 1), Middle)
    requires b3 == PlacePiece(b2, CellAt(o, r, c, 2), Middle)
    requires b4 == PlacePiece(b3, CellAt(o, r, c, 3), Last(o))
    ensures InsertShip(b0, o, r, c, 4) == Sunk(b4, 4)
  {
    ShipPlaceable(o, r, c, 4, 0);
    ShipPlaceable(o, r, c, 4, 4);
    PlaceRestStep(b0, o, r, c, 4, 0);
    PlaceRestStep(b1, o, r, c, 4, 1);
    PlaceRestStep(b2, o, r, c, 4, 2);
    PlaceRestStep(b3, o, r, c, 4, 3);
    ShipDone(b0, b4, o, r, c, 4);
  }

  /** Offset of q along the ship's direction and across it. */
  function Along(o: Orientation, q: Coord): int {
    if o == Horizontal then q.1 else q.0
  }

  function Across(o: Orientation, q: Coord): int {
    if o == Horizontal then q.0 else q.1
  }

  /** q is one of the cells from..to-1 of the ship. */
  predicate InSpan(o: Orientation, r: int, c: int, from: int, to: int, q: Coord) {
    var start := Along(o, (r, c));
    Across(o, q) == Across(o, (r, c)) && start + from <= Along(o, q) < start + to
  }

  /** q lies in the box around the cells from..to-1 of the ship, widened by one cell on
      every side. */
  predicate InBand(o: Orientation, r: int, c: int, from: int, to: int, q: Coord) {
    var start := Along(o, (r, c));
    from < to &&
    Across(o, (r, c)) - 1 <= Across(o, q) <= Across(o, (r, c)) + 1 &&
    start + from - 1 <= Along(o, q) <= start + to
  }

  /** Ship cells taken from row i (RowHits) and column j (ColHits) by the pieces
      from..to-1. */
  function RowHits(o: Orientation, r: int, c: int, from: int, to: int, i: int): int {
    if o == Horizontal then (if i == r then to - from else 0)
    else (if r + from <= i < r + to then 1 else 0)
  }

  function ColHits(o: Orientation, r: int, c: int, from: int, to: int, j: int): int {
    if o == Horizontal then (if c + from <= j < c + to then 1 else 0)
    else (if j == c then to - from else 0)
  }

  /** What cell q holds once the pieces from the j-th on are placed over m: those cells
      hold their pieces, every other cell of the band around them that is not a cell of
      the ship is water, and the rest is as in m. */
  function SpanCell(m: Matrix, o: Orientation, r: int, c: int, len: int, j: int, q: Coord): Cell
    requires InGrid(q)
  {
    if InSpan(o, r, c, j, len, q) then ShipKind(o, len, Along(o, q) - Along(o, (r, c)))
    else if InBand(o, r, c, j, len, q) && !InSpan(o, r, c, 0, len, q) then Water
    else At(m, q)
  }

  /** Which cells piece j of a ship waters: its neighbours that are not cells of the ship
      and, for a middle piece, not beside it across the ship either. */
  lemma TargetsOfPiece(o: Orientation, r: int, c: int, len: int, j: int, q: Coord)
    requires 1 <= len <= 4 && 0 <= j < len && InGrid(q)
    ensures var p := CellAt(o, r, c, j);
      IsTarget(p, ShipKind(o, len, j), q) <==>
        && IsNeighbour(p, q)
        && !InSpan(o, r, c, 0, len, q)
        && !(ShipKind(o, len, j) == Middle && Along(o, q) == Along(o, p))
  {
    if o == Horizontal {
      if len == 1 {} else if j == 0 {} else if j == len - 1 {} else {}
    } else {
      if len == 1 {} else if j == 0 {} else if j == len - 1 {} else {}
    }
  }

  /** One piece of the ship, then the pieces after it: how the cell q evolves. */
  lemma SpanCellStep(b: BoardData, o: Orientation, r: int, c: int, len: int, j: int, q: Coord)
    requires 1 <= len <= 4 && ShipFits(o, r, c, len) && 0 <= j < len && InGrid(q)
    ensures SpanCell(PlacePiece(b, CellAt(o, r, c, j), ShipKind(o, len, j)).matrix, o, r, c, len, j + 1, q)
         == SpanCell(b.matrix, o, r, c, len, j, q)
  {
    var p := CellAt(o, r, c, j);
    if !InSpan(o, r, c, j, len, q) {
      TargetsOfPiece(o, r, c, len, j, q);
    }
  }

  /** The cells after the pieces from the j-th on. */
  lemma {:induction false} PlaceRestCell(b: BoardData, o: Orientation, r: int, c: int, len: int, j: int, q: Coord)
    requires 1 <= len <= 4 && ShipFits(o, r, c, len) && 0 <= j <= len && InGrid(q)
    ensures
      At(PlaceAll(b, ShipPieces(o, r, c, len)[j..]).matrix, q) == SpanCell(b.matrix, o, r, c, len, j, q)
    decreases len - j
  {
    if j < len {
      PlaceRestStep(b, o, r, c, len, j);
      var b1 := PlacePiece(b, CellAt(o, r, c, j), ShipKind(o, len, j));
      PlaceRestCell(b1, o, r, c, len, j + 1, q);
      SpanCellStep(b, o, r, c, len, j, q);
    } else {
      assert ShipPieces(o, r, c, len)[j..] == [];
    }
  }

  /** Piece j is hit once in its own row and column, then the pieces after it. */
  lemma HitsStep(o: Orientation, r: int, c: int, j: int, len: int, i: int)
    requires 0 <= j < len
    ensures RowHits(o, r, c, j, len, i) == RowHits(o, r, c, j + 1, len, i) + (if CellAt(o, r, c, j).0 == i then 1 else 0)
    ensures ColHits(o, r, c, j, len, i) == ColHits(o, r, c, j + 1, len, i) + (if CellAt(o, r, c, j).1 == i then 1 else 0)
  {
  }

  /** The row and column counters after the pieces from the j-th on: each lost one per
      piece placed in it. */
  lemma {:induction false} PlaceRestLines(b: BoardData, o: Orientation, r: int, c: int, len: int, j: int, i: int)
    requires 1 <= len <= 4 && ShipFits(o, r, c, len) && 0 <= j <= len && 0 <= i < 10
    ensures
      PlaceAll(b, ShipPieces(o, r, c, len)[j..]).rows[i] == b.rows[i] - RowHits(o, r, c, j, len, i)
    ensures
      PlaceAll(b, ShipPieces(o, r, c, len)[j..]).cols[i] == b.cols[i] - ColHits(o, r, c, j, len, i)
    decreases len - j
  {
    if j < len {
      PlaceRestStep(b, o, r, c, len, j);
      var p := CellAt(o, r, c, j);
      var b1 := PlacePiece(b, p, ShipKind(o, len, j));
      PlaceRestLines(b1, o, r, c, len, j + 1, i);
      assert b1.rows[i] == b.rows[i] - (if p.0 == i then 1 else 0);
      assert b1.cols[i] == b.cols[i] - (if p.1 == i then 1 else 0);
      HitsStep(o, r, c, j, len, i);
    } else {
      assert ShipPieces(o, r, c, len)[j..] == [];
    }
  }

  /** pieces_left after the pieces from the j-th on lost one per piece, ships[1] one for a
      circle; the hint bookkeeping is untouched. */
  lemma {:induction false} PlaceRestTotals(b: BoardData, o: Orientation, r: int, c: int, len: int, j: int)
    requires 1 <= len <= 4 && ShipFits(o, r, c, len) && 0 <= j <= len
    ensures var b' := PlaceAll(b, ShipPieces(o, r, c, len)[j..]);
      && b'.ships == (if len == 1 && j == 0 then b.ships[1 := b.ships[1] - 1] else b.ships)
      && b'.piecesLeft == b.piecesLeft - (len - j)
      && b'.hintsToPlace == b.hintsToPlace && b'.hintsPlaced == b.hintsPlaced
    decreases len - j
  {
    if j < len {
      PlaceRestStep(b, o, r, c, len, j);
      var b1 := PlacePiece(b, CellAt(o, r, c, j), ShipKind(o, len, j));
      PlaceRestTotals(b1, o, r, c, len, j + 1);
    } else {
      assert ShipPieces(o, r, c, len)[j..] == [];
    }
  }

  /** The pieces from the j-th on go onto unknown cells, and nothing any of them waters
      holds a ship. */
  ghost predicate RestClear(m: Matrix, o: Orientation, r: int, c: int, len: int, j: int)
    requires ShipFits(o, r, c, len) && 1 <= len <= 4
  {
    forall k :: 0 <= k < len && j <= k ==>
      At(m, CellAt(o, r, c, k)) == Unknown &&
      forall q :: IsTarget(CellAt(o, r, c, k), ShipKind(o, len, k), q) ==> !IsShip(At(m, q))
  }

  /** Placing piece j keeps the later pieces clear: it waters none of their cells, and no
      later piece waters piece j's cell. */
  lemma RestClearStep(b: BoardData, o: Orientation, r: int, c: int, len: int, j: int)
    requires 1 <= len <= 4 && ShipFits(o, r, c, len) && 0 <= j < len
    requires RestClear(b.matrix, o, r, c, len, j)
    ensures RestClear(PlacePiece(b, CellAt(o, r, c, j), ShipKind(o, len, j)).matrix, o, r, c, len, j + 1)
  {
    forall k | 0 <= k < len && j + 1 <= k {
      RestClearCell(b, o, r, c, len, j, k);
    }
  }

  /** RestClearStep for one later piece k. */
  lemma RestClearCell(b: BoardData, o: Orientation, r: int, c: int, len: int, j: int, k: int)
    requires 1 <= len <= 4 && ShipFits(o, r, c, len) && 0 <= j < k < len
    requires At(b.matrix, CellAt(o, r, c, k)) == Unknown
    requires forall q :: IsTarget(CellAt(o, r, c, k), ShipKind(o, len, k), q) ==> !IsShip(At(b.matrix, q))
    ensures var m := PlacePiece(b, CellAt(o, r, c, j), ShipKind(o, len, j)).matrix;
      && At(m, CellAt(o, r, c, k)) == Unknown
      && forall q :: IsTarget(CellAt(o, r, c, k), ShipKind(o, len, k), q) ==> !IsShip(At(m, q))
  {
    var p := CellAt(o, r, c, j);
    TargetsOfPiece(o, r, c, len, j, CellAt(o, r, c, k));
    TargetsOfPiece(o, r, c, len, k, p);
    assert InSpan(o, r, c, 0, len, CellAt(o, r, c, k));
    assert InSpan(o, r, c, 0, len, p);
  }

  lemma {:induction false} PlaceRestDrift(b: BoardData, o: Orientation, r: int, c: int, len: int, j: int)
    requires 1 <= len <= 4 && ShipFits(o, r, c, len) && 0 <= j <= len
    requires RestClear(b.matrix, o, r, c, len, j)
    ensures
      FreeDrift(PlaceAll(b, ShipPieces(o, r, c, len)[j..])) == FreeDrift(b)
    decreases len - j
  {
    if j < len {
      PlaceRestStep(b, o, r, c, len, j);
      var b1 := PlacePiece(b, CellAt(o, r, c, j), ShipKind(o, len, j));
      PlacePieceDrift(b, CellAt(o, r, c, j), ShipKind(o, len, j));
      RestClearStep(b, o, r, c, len, j);
      PlaceRestDrift(b1, o, r, c, len, j + 1);
    } else {
      assert ShipPieces(o, r, c, len)[j..] == [];
    }
  }

  /** Every cell of a span that can take a ship is unknown and has no ship next to it. */
  ghost predicate SpanClear(m: Matrix, o: Orientation, r: int, c: int, len: int) {
    forall k :: 0 <= k < len ==>
      IsFree(m, CellAt(o, r, c, k)) &&
      forall q :: InGrid(q) && IsNeighbour(CellAt(o, r, c, k), q) ==> !IsShip(At(m, q))
  }

  /** One ship of length len fewer in the inventory. */
  function Sunk(b: BoardData, len: int): BoardData
    requires 1 <= len <= 4
  {
    b.(ships := Fewer(b.ships, len))
  }

  /** insert_ship_horizontal / insert_ship_vertical: a circle for length 1; for 2..4 the
      end pieces with middles between, then ships[len] -= 1; any other length does nothing. */
  function InsertShip(b: BoardData, o: Orientation, r: int, c: int, len: int): BoardData
    requires ShipFits(o, r, c, len)
  {
    if 1 <= len <= 4 then
      var b' := PlaceAll(b, ShipPieces(o, r, c, len));
      if len == 1 then b' else Sunk(b', len)
    else b
  }

  /** The whole ship is its pieces from the 0th on. */
  lemma InsertShipIsRest(b: BoardData, o: Orientation, r: int, c: int, len: int)
    requires 1 <= len <= 4 && ShipFits(o, r, c, len)
    ensures
      var b' := PlaceAll(b, ShipPieces(o, r, c, len)[0..]);
      InsertShip(b, o, r, c, len) == if len == 1 then b' else Sunk(b', len)
  {
    assert ShipPieces(o, r, c, len)[0..] == ShipPieces(o, r, c, len);
  }

  lemma InsertShipCell(b: BoardData, o: Orientation, r: int, c: int, len: int, q: Coord)
    requires 1 <= len <= 4 && ShipFits(o, r, c, len) && InGrid(q)
    ensures At(InsertShip(b, o, r, c, len).matrix, q) == SpanCell(b.matrix, o, r, c, len, 0, q)
  {
    InsertShipIsRest(b, o, r, c, len);
    PlaceRestCell(b, o, r, c, len, 0, q);
  }

  /** A ship of length 1..4 holds its pieces in order (circle, or first, middles, last),
      every other cell of the box around it is water, and no cell outside that box
      changes. */
  lemma InsertShipCells(b: BoardData, o: Orientation, r: int, c: int, len: int)
    requires 1 <= len <= 4 && ShipFits(o, r, c, len)
    ensures var m' := InsertShip(b, o, r, c, len).matrix;
      && (forall i :: 0 <= i < len ==> At(m', CellAt(o, r, c, i)) == ShipKind(o, len, i))
      && (forall q :: InGrid(q) && InBand(o, r, c, 0, len, q) && !InSpan(o, r, c, 0, len, q) ==>
            At(m', q) == Water)
      && (forall q :: InGrid(q) && !InBand(o, r, c, 0, len, q) ==> At(m', q) == At(b.matrix, q))
  {
    var m' := InsertShip(b, o, r, c, len).matrix;
    forall q | InGrid(q) ensures At(m', q) == SpanCell(b.matrix, o, r, c, len, 0, q) {
      InsertShipCell(b, o, r, c, len, q);
    }
    WholeSpan(b.matrix, m', o, r, c, len);
  }

  /** What SpanCell says about a whole ship, read cell by cell. */
  lemma WholeSpan(m: Matrix, m': Matrix, o: Orientation, r: int, c: int, len: int)
    requires 1 <= len <= 4 && ShipFits(o, r, c, len)
    requires forall q :: InGrid(q) ==> At(m', q) == SpanCell(m, o, r, c, len, 0, q)
    ensures forall i :: 0 <= i < len ==> At(m', CellAt(o, r, c, i)) == ShipKind(o, len, i)
    ensures forall q :: InGrid(q) && InBand(o, r, c, 0, len, q) && !InSpan(o, r, c, 0, len, q) ==>
      At(m', q) == Water
    ensures forall q :: InGrid(q) && !InBand(o, r, c, 0, len, q) ==> At(m', q) == At(m, q)
  {
    forall i | 0 <= i < len ensures At(m', CellAt(o, r, c, i)) == ShipKind(o, len, i) {
      assert InSpan(o, r, c, 0, len, CellAt(o, r, c, i));
    }
  }

  lemma InsertShipLine(b: BoardData, o: Orientation, r: int, c: int, len: int, i: int)
    requires 1 <= len <= 4 && ShipFits(o, r, c, len) && 0 <= i < 10
    ensures InsertShip(b, o, r, c, len).rows[i] == b.rows[i] - RowHits(o, r, c, 0, len, i)
    ensures InsertShip(b, o, r, c, len).cols[i] == b.cols[i] - ColHits(o, r, c, 0, len, i)
  {
    InsertShipIsRest(b, o, r, c, len);
    PlaceRestLines(b, o, r, c, len, 0, i);
  }

  lemma InsertShipTotals(b: BoardData, o: Orientation, r: int, c: int, len: int)
    requires 1 <= len <= 4 && ShipFits(o, r, c, len)
    ensures var b' := InsertShip(b, o, r, c, len);
      && b'.ships == b.ships[len := b.ships[len] - 1]
      && b'.piecesLeft == b.piecesLeft - len
      && b'.hintsToPlace == b.hintsToPlace && b'.hintsPlaced == b.hintsPlaced
  {
    InsertShipIsRest(b, o, r, c, len);
    PlaceRestTotals(b, o, r, c, len, 0);
    ShipPlaceable(o, r, c, len, 0);
    SinkTotals(b, PlaceAll(b, ShipPieces(o, r, c, len)[0..]), InsertShip(b, o, r, c, len), len);
  }

  /** One ship of length len fewer: after the pieces, or through the circle itself for a submarine. */
  lemma SinkTotals(b: BoardData, b0: BoardData, b': BoardData, len: int)
    requires 1 <= len <= 4
    requires b0.ships == (if len == 1 then b.ships[1 := b.ships[1] - 1] else b.ships)
    requires b0.piecesLeft == b.piecesLeft - len
    requires b0.hintsToPlace == b.hintsToPlace && b0.hintsPlaced == b.hintsPlaced
    requires b' == if len == 1 then b0 else Sunk(b0, len)
    ensures b'.ships == b.ships[len := b.ships[len] - 1]
    ensures b'.piecesLeft == b.piecesLeft - len
    ensures b'.hintsToPlace == b.hintsToPlace && b'.hintsPlaced == b.hintsPlaced
  {
  }

  /** Taking one ship of length len and len pieces keeps pieces_left equal to the number
      of cells the inventory holds. */
  lemma SinkKeepsCount(b: BoardData, b': BoardData, len: int)
    requires 1 <= len <= 4
    requires b'.ships == b.ships[len := b.ships[len] - 1] && b'.piecesLeft == b.piecesLeft - len
    ensures PiecesCounted(b) ==> PiecesCounted(b')
  {
  }

  /** A ship of length 1..4 takes one from the counter of each row and column per cell it
      has there, one from ships[len], and len from pieces_left, so pieces_left stays equal
      to the number of cells the inventory still holds. */
  lemma InsertShipCounts(b: BoardData, o: Orientation, r: int, c: int, len: int)
    requires 1 <= len <= 4 && ShipFits(o, r, c, len)
    ensures var b' := InsertShip(b, o, r, c, len);
      && (forall i :: 0 <= i < 10 ==> b'.rows[i] == b.rows[i] - RowHits(o, r, c, 0, len, i))
      && (forall j :: 0 <= j < 10 ==> b'.cols[j] == b.cols[j] - ColHits(o, r, c, 0, len, j))
      && b'.ships == b.ships[len := b.ships[len] - 1]
      && b'.piecesLeft == b.piecesLeft - len
      && b'.hintsToPlace == b.hintsToPlace && b'.hintsPlaced == b.hintsPlaced
      && (PiecesCounted(b) ==> PiecesCounted(b'))
  {
    var b' := InsertShip(b, o, r, c, len);
    forall i | 0 <= i < 10
      ensures b'.rows[i] == b.rows[i] - RowHits(o, r, c, 0, len, i)
      ensures b'.cols[i] == b.cols[i] - ColHits(o, r, c, 0, len, i)
    {
      InsertShipLine(b, o, r, c, len, i);
    }
    InsertShipTotals(b, o, r, c, len);
    SinkKeepsCount(b, b', len);
  }

  /** Placing a ship where it can go keeps free_positions equal to the unknown count. */
  lemma InsertShipDrift(b: BoardData, o: Orientation, r: int, c: int, len: int)
    requires 1 <= len <= 4 && ShipFits(o, r, c, len) && SpanClear(b.matrix, o, r, c, len)
    ensures FreeDrift(InsertShip(b, o, r, c, len)) == FreeDrift(b)
  {
    InsertShipIsRest(b, o, r, c, len);
    PlaceRestDrift(b, o, r, c, len, 0);
  }

  // ---- clue-driven water ----

  /** The clue kinds handled by insert_top_waters ... insert_middle_waters. */
  predicate IsClueKind(v: Cell) {
    v == Top || v == Bottom || v == Left || v == Right || v == Middle
  }

  /** The cell the ship of an end clue must continue into. */
  function Next(p: Coord, v: Cell): Coord
    requires v == Top || v == Bottom || v == Left || v == Right
  {
    match v
    case Top => (p.0 + 1, p.1)
    case Bottom => (p.0 - 1, p.1)
    case Left => (p.0, p.1 + 1)
    case Right => (p.0, p.1 - 1)
  }

  /** q is within two rows and two columns of p. */
  predicate Near2(p: Coord, q: Coord) {
    -2 <= q.0 - p.0 <= 2 && -2 <= q.1 - p.1 <= 2
  }

  /** The cells watered only if still free: two steps along the ship and one to each
      side for an end clue, the four diagonals for a middle clue. */
  function Beyond(p: Coord, v: Cell): (s: seq<Coord>)
    requires IsClueKind(v)
    ensures forall q :: q in s ==> q != p && Near2(p, q)
  {
    var (r, c) := p;
    match v
    case Top => [(r + 2, c - 1), (r + 2, c + 1)]
    case Bottom => [(r - 2, c - 1), (r - 2, c + 1)]
    case Left => [(r - 1, c + 2), (r + 1, c + 2)]
    case Right => [(r - 1, c - 2), (r + 1, c - 2)]
    case Middle => [(r - 1, c - 1), (r - 1, c + 1), (r + 1, c - 1), (r + 1, c + 1)]
  }

  /** Reset the clue cell to unknown and count it as free again. */
  function Retract(b: BoardData, p: Coord): BoardData
    requires InGrid(p)
  {
    b.(matrix := Set(b.matrix, p, Unknown), free := b.free + 1)
  }

  /** The clue's continuation cell must be on the board: the source's list.remove raises
      otherwise. */
  predicate ClueFits(p: Coord, v: Cell) {
    InGrid(p) && IsClueKind(v) && (v != Middle ==> InGrid(Next(p, v)))
  }

  /** When the clue's column wants one more cell: water the column, then reset the clue cell. */
  function RetractCol(b: BoardData, p: Coord): (b': BoardData)
    requires InGrid(p)
    ensures At(b'.matrix, p) == if b.cols[p.1] == 1 then Unknown else At(b.matrix, p)
    ensures forall q :: InGrid(q) && q != p ==>
      At(b'.matrix, q) == if b.cols[p.1] == 1 && q.1 == p.1 && At(b.matrix, q) == Unknown then Water else At(b.matrix, q)
    ensures SameCounts(b, b')
  {
    if b.cols[p.1] == 1 then Retract(FillCol(b, p.1), p) else b
  }

  /** When the clue's row wants one more cell: water the row, then reset the clue cell. */
  function RetractRow(b: BoardData, p: Coord): (b': BoardData)
    requires InGrid(p)
    ensures At(b'.matrix, p) == if b.rows[p.0] == 1 then Unknown else At(b.matrix, p)
    ensures forall q :: InGrid(q) && q != p ==>
      At(b'.matrix, q) == if b.rows[p.0] == 1 && q.0 == p.0 && At(b.matrix, q) == Unknown then Water else At(b.matrix, q)
    ensures SameCounts(b, b')
  {
    if b.rows[p.0] == 1 then Retract(FillRow(b, p.0), p) else b
  }

  /** The neighbours an end clue waters unconditionally; none for a middle clue. */
  function ClueNeighbours(b: BoardData, p: Coord, v: Cell): (b': BoardData)
    requires ClueFits(p, v)
    ensures forall q :: InGrid(q) ==>
      At(b'.matrix, q) == if v != Middle && IsTarget(p, v, q) then Water else At(b.matrix, q)
    ensures SameCounts(b, b')
  {
    TargetsExact(p, v);
    if v == Middle then b else FloodAll(b, Targets(p, v))
  }

  /** insert_top_waters, insert_bottom_waters, insert_left_waters, insert_right_waters and
      insert_middle_waters. */
  function ClueWaters(b: BoardData, p: Coord, v: Cell): BoardData
    requires ClueFits(p, v)
  {
    RetractRow(RetractCol(FloodFree(ClueNeighbours(b, p, v), Beyond(p, v)), p), p)
  }


  /** The value a clue deduction leaves in cell q, stage by stage: the neighbours of an
      end clue, then the cells beyond, then the clue's column and row when their
      counter is 1 (the clue cell itself ends up unknown then). */
  function ClueCell(b: BoardData, p: Coord, v: Cell, q: Coord): Cell
    requires ClueFits(p, v) && InGrid(q)
  {
    var retracted := b.cols[p.1] == 1 || b.rows[p.0] == 1;
    if q == p then (if retracted then Unknown else At(b.matrix, p))
    else
      var m1 := if v != Middle && IsTarget(p, v, q) then Water else At(b.matrix, q);
      var m2 := if q in Beyond(p, v) && m1 == Unknown then Water else m1;
      var m3 := if b.cols[p.1] == 1 && q.1 == p.1 && m2 == Unknown then Water else m2;
      if b.rows[p.0] == 1 && q.0 == p.0 && m3 == Unknown then Water else m3
  }

  lemma ClueWatersCell(b: BoardData, p: Coord, v: Cell, q: Coord)
    requires ClueFits(p, v) && InGrid(q)
    ensures At(ClueWaters(b, p, v).matrix, q) == ClueCell(b, p, v, q)
  {
    var b1 := ClueNeighbours(b, p, v);
    var b2 := FloodFree(b1, Beyond(p, v));
    ClueBeyondStage(b, p, v, q);
    RetractStage(b2, p, q);
    assert b2.cols == b.cols && b2.rows == b.rows;
  }

  /** The value of cell q after the retraction of a clue at p, column first, then row. */
  lemma RetractStage(b: BoardData, p: Coord, q: Coord)
    requires InGrid(p) && InGrid(q)
    ensures q == p ==> (At(RetractRow(RetractCol(b, p), p).matrix, q) ==
      if b.cols[p.1] == 1 || b.rows[p.0] == 1 then Unknown else At(b.matrix, p))
    ensures q != p ==> (
      var m3 := if b.cols[p.1] == 1 && q.1 == p.1 && At(b.matrix, q) == Unknown then Water else At(b.matrix, q);
      At(RetractRow(RetractCol(b, p), p).matrix, q) ==
        if b.rows[p.0] == 1 && q.0 == p.0 && m3 == Unknown then Water else m3)
  {
    assert RetractCol(b, p).rows == b.rows;
  }

  /** The value of cell q once an end clue's neighbours and the cells beyond are watered. */
  lemma ClueBeyondStage(b: BoardData, p: Coord, v: Cell, q: Coord)
    requires ClueFits(p, v) && InGrid(q)
    ensures var m1 := if v != Middle && IsTarget(p, v, q) then Water else At(b.matrix, q);
      At(FloodFree(ClueNeighbours(b, p, v), Beyond(p, v)).matrix, q) ==
        if q in Beyond(p, v) && m1 == Unknown then Water else m1
  {
  }

  lemma ClueWatersCounts(b: BoardData, p: Coord, v: Cell)
    requires ClueFits(p, v)
    ensures SameCounts(b, ClueWaters(b, p, v))
  {
  }

  /** What a clue deduction does: counters and inventory unchanged; for an end clue every
      neighbour but the continuation is water; cells two steps beyond (the diagonals for
      a middle clue) are water if they were unknown; when the clue's column or row counter
      is 1 that whole line is watered and the clue cell itself is reset to unknown. Every
      other cell, the continuation included, becomes water exactly when it was unknown
      and lies beyond or in a watered line, and otherwise keeps its value, so a ship
      piece there survives. */
  lemma ClueWatersEffect(b: BoardData, p: Coord, v: Cell)
    requires ClueFits(p, v)
    ensures var b' := ClueWaters(b, p, v);
      var retracted := b.cols[p.1] == 1 || b.rows[p.0] == 1;
      && SameCounts(b, b')
      && At(b'.matrix, p) == (if retracted then Unknown else At(b.matrix, p))
      && (v != Middle ==> forall q :: IsTarget(p, v, q) ==> At(b'.matrix, q) == Water)
      && (forall q :: InGrid(q) && q in Beyond(p, v) && At(b.matrix, q) == Unknown ==> At(b'.matrix, q) == Water)
      && (b.cols[p.1] == 1 ==> forall i :: 0 <= i < 10 && i != p.0 ==> At(b'.matrix, (i, p.1)) != Unknown)
      && (b.rows[p.0] == 1 ==> forall j :: 0 <= j < 10 && j != p.1 ==> At(b'.matrix, (p.0, j)) != Unknown)
      && (forall q :: InGrid(q) && q != p && !(v != Middle && IsTarget(p, v, q)) ==>
            At(b'.matrix, q) == if At(b.matrix, q) == Unknown && (q in Beyond(p, v) || (b.cols[p.1] == 1 && q.1 == p.1) ||
                                                                 (b.rows[p.0] == 1 && q.0 == p.0))
                                then Water else At(b.matrix, q))
  {
    var b' := ClueWaters(b, p, v);
    ClueWatersCounts(b, p, v);
    forall q | InGrid(q) ensures At(b'.matrix, q) == ClueCell(b, p, v, q) {
      ClueWatersCell(b, p, v, q);
    }
    ClueCells(b, b'.matrix, p, v);
  }

  /** The per-cell values of ClueCell, read as properties of the whole board. */
  lemma ClueCells(b: BoardData, m': Matrix, p: Coord, v: Cell)
    requires ClueFits(p, v)
    requires forall q :: InGrid(q) ==> At(m', q) == ClueCell(b, p, v, q)
    ensures v != Middle ==> forall q :: IsTarget(p, v, q) ==> At(m', q) == Water
    ensures forall q :: InGrid(q) && q in Beyond(p, v) && At(b.matrix, q) == Unknown ==> At(m', q) == Water
    ensures b.cols[p.1] == 1 ==> forall i :: 0 <= i < 10 && i != p.0 ==> At(m', (i, p.1)) != Unknown
    ensures b.rows[p.0] == 1 ==> forall j :: 0 <= j < 10 && j != p.1 ==> At(m', (p.0, j)) != Unknown
    ensures forall q :: InGrid(q) && q != p && !(v != Middle && IsTarget(p, v, q)) ==>
      At(m', q) == if At(b.matrix, q) == Unknown && (q in Beyond(p, v) || (b.cols[p.1] == 1 && q.1 == p.1) ||
                                                    (b.rows[p.0] == 1 && q.0 == p.0))
                   then Water else At(b.matrix, q)
  {
    forall q | InGrid(q) && q in Beyond(p, v) ensures q != p {}
  }

  lemma RetractColDrift(b: BoardData, p: Coord)
    requires InGrid(p)
    ensures FreeDrift(RetractCol(b, p)) == FreeDrift(b)
  {
    if b.cols[p.1] == 1 {
      var f := FillCol(b, p.1);
      FloodFreeDrift(b, ColCoords(p.1));
      UnknownCellsSet(f.matrix, p, Unknown);
    }
  }

  lemma RetractRowDrift(b: BoardData, p: Coord)
    requires InGrid(p)
    ensures FreeDrift(RetractRow(b, p)) == FreeDrift(b)
  {
    if b.rows[p.0] == 1 {
      var f := FillRow(b, p.0);
      FloodFreeDrift(b, RowCoords(p.0));
      UnknownCellsSet(f.matrix, p, Unknown);
    }
  }

  /** The retraction restores free_positions: with no ship among the cells it waters
      unconditionally, a clue deduction keeps free_positions equal to the unknown count. */
  lemma ClueWatersDrift(b: BoardData, p: Coord, v: Cell)
    requires ClueFits(p, v)
    requires v != Middle ==> forall q :: IsTarget(p, v, q) ==> !IsShip(At(b.matrix, q))
    ensures FreeDrift(ClueWaters(b, p, v)) == FreeDrift(b)
  {
    var b1 := ClueNeighbours(b, p, v);
    if v != Middle {
      TargetsExact(p, v);
      FloodAllDrift(b, Targets(p, v));
    }
    var b2 := FloodFree(b1, Beyond(p, v));
    FloodFreeDrift(b1, Beyond(p, v));
    var b3 := RetractCol(b2, p);
    RetractColDrift(b2, p);
    RetractRowDrift(b3, p);
  }
}
