/** The 10x10 Bimaru grid: what a cell may hold, coordinates, the 8-neighbourhood
    and the count of cells still unknown. */
module Cells {

  /** A cell of the board: unknown (the source's 0), water ("w"), or one of the six
      ship pieces "c", "t", "b", "l", "r", "m". */
  datatype Cell = Unknown | Water | Circle | Top | Bottom | Left | Right | Middle

  datatype Option<T> = None | Some(value: T)

  predicate IsShip(v: Cell) {
    v != Unknown && v != Water
  }

  /** (row, column); not necessarily on the board. */
  type Coord = (int, int)

  predicate InGrid(p: Coord) {
    0 <= p.0 < 10 && 0 <= p.1 < 10
  }

  type Matrix = m: seq<seq<Cell>> | |m| == 10 && forall r :: 0 <= r < 10 ==> |m[r]| == 10
    witness seq(10, _ => seq(10, _ => Unknown))

  function At(m: Matrix, p: Coord): Cell
    requires InGrid(p)
  {
    m[p.0][p.1]
  }

  /** The matrix with the cell at p replaced by v. */
  function Set(m: Matrix, p: Coord, v: Cell): (m': Matrix)
    requires InGrid(p)
    ensures At(m', p) == v
    ensures forall q :: InGrid(q) && q != p ==> At(m', q) == At(m, q)
  {
    m[p.0 := m[p.0][p.1 := v]]
  }

  /** The all-unknown matrix a new board starts from. */
  function EmptyMatrix(): (m: Matrix)
    ensures forall q :: InGrid(q) ==> At(m, q) == Unknown
  {
    seq(10, _ => seq(10, _ => Unknown))
  }

  /** get_value: the cell, or None (the source's -1) off the board. */
  function GetValue(m: Matrix, p: Coord): (v: Option<Cell>)
    ensures v.None? <==> !InGrid(p)
    ensures v.Some? ==> v.value == At(m, p)
  {
    if p.0 < 0 || p.1 < 0 || p.0 >= 10 || p.1 >= 10 then None else Some(m[p.0][p.1])
  }

  /** is_free_position: on the board and still unknown. */
  predicate IsFree(m: Matrix, p: Coord): (r: bool)
    ensures r <==> InGrid(p) && At(m, p) == Unknown
  {
    GetValue(m, p) == Some(Unknown)
  }

  predicate IsNeighbour(p: Coord, q: Coord) {
    q != p && -1 <= q.0 - p.0 <= 1 && -1 <= q.1 - p.1 <= 1
  }

  /** The offsets of get_all_adjacent_coords, in its order: up, down, left, right, then
      up-left, up-right, down-left, down-right. */
  const Offsets: seq<(int, int)> := [(-1, 0), (1, 0), (0, -1), (0, 1), (-1, -1), (-1, 1), (1, -1), (1, 1)]

  function Shift(p: Coord, d: (int, int)): Coord {
    (p.0 + d.0, p.1 + d.1)
  }

  /** The eight cells around p, in the order of Offsets, on the board or not. */
  function Around(p: Coord): (s: seq<Coord>)
    ensures |s| == 8
    ensures forall i :: 0 <= i < 8 ==> s[i] == Shift(p, Offsets[i])
  {
    seq(8, i requires 0 <= i < 8 => Shift(p, Offsets[i]))
  }

  /** The coordinates of s that lie on the board, in order (the comprehension of
      get_all_adjacent_coords that drops what get_value reports as out of bounds). */
  function OnBoard(s: seq<Coord>): (r: seq<Coord>)
    ensures forall q :: q in r <==> q in s && InGrid(q)
  {
    if s == [] then []
    else (if InGrid(s[0]) then [s[0]] else []) + OnBoard(s[1..])
  }

  /** get_all_adjacent_coords: up, down, left, right and the four diagonals, those
      off the board left out. */
  function AdjacentCoords(p: Coord): (s: seq<Coord>)
    ensures forall q :: q in s ==> InGrid(q) && IsNeighbour(p, q)
  {
    OnBoard(Around(p))
  }

  /** get_all_adjacent_coords lists exactly the on-board neighbours of p. */
  lemma AdjacentCoordsExact(p: Coord)
    ensures forall q :: q in AdjacentCoords(p) <==> InGrid(q) && IsNeighbour(p, q)
  {
    forall q | InGrid(q) && IsNeighbour(p, q) ensures q in AdjacentCoords(p) {
      var d := (q.0 - p.0, q.1 - p.1);
      var j :=
        if d == (-1, 0) then 0 else if d == (1, 0) then 1 else if d == (0, -1) then 2
        else if d == (0, 1) then 3 else if d == (-1, -1) then 4 else if d == (-1, 1) then 5
        else if d == (1, -1) then 6 else 7;
      assert Around(p)[j] == q;
    }
  }

  /** get_all_adjacent_values: the cells at AdjacentCoords(p), in the same order. */
  function AdjacentValues(m: Matrix, p: Coord): (vs: seq<Cell>)
    ensures |vs| == |AdjacentCoords(p)|
    ensures forall i :: 0 <= i < |vs| ==> vs[i] == At(m, AdjacentCoords(p)[i])
  {
    var cs := AdjacentCoords(p);
    seq(|cs|, i requires 0 <= i < |cs| => At(m, cs[i]))
  }

  /** No value next to p is a ship piece: every adjacent value is unknown or water. */
  predicate NoShipAround(m: Matrix, p: Coord) {
    forall v :: v in AdjacentValues(m, p) ==> !IsShip(v)
  }

  lemma NoShipAroundMeaning(m: Matrix, p: Coord)
    ensures NoShipAround(m, p) <==>
            forall q :: InGrid(q) && IsNeighbour(p, q) ==> !IsShip(At(m, q))
  {
    var cs := AdjacentCoords(p);
    var vs := AdjacentValues(m, p);
    AdjacentCoordsExact(p);
    if NoShipAround(m, p) {
      forall q | InGrid(q) && IsNeighbour(p, q) ensures !IsShip(At(m, q)) {
        var i :| 0 <= i < |cs| && cs[i] == q;
        assert vs[i] in vs;
      }
    }
    if forall q :: InGrid(q) && IsNeighbour(p, q) ==> !IsShip(At(m, q)) {
      forall v | v in vs ensures !IsShip(v) {
        var i :| 0 <= i < |vs| && vs[i] == v;
        assert cs[i] in cs;
      }
    }
  }

  // ---- counting unknown cells ----

  /** The number of unknown cells of a line. */
  function Unknowns(s: seq<Cell>): (n: nat)
    ensures n <= |s|
    ensures n == 0 <==> Unknown !in s
  {
    if s == [] then 0 else (if s[0] == Unknown then 1 else 0) + Unknowns(s[1..])
  }

  /** Column c of the matrix, top to bottom. */
  function Column(m: Matrix, c: int): (s: seq<Cell>)
    requires 0 <= c < 10
    ensures |s| == 10 && forall i :: 0 <= i < 10 ==> s[i] == At(m, (i, c))
  {
    seq(10, i requires 0 <= i < 10 => m[i][c])
  }

  function U(v: Cell): nat {
    if v == Unknown then 1 else 0
  }

  lemma {:induction false} UnknownsUpdate(s: seq<Cell>, i: int, v: Cell)
    requires 0 <= i < |s|
    ensures Unknowns(s[i := v]) == Unknowns(s) - U(s[i]) + U(v)
  {
    if i > 0 {
      assert s[i := v][1..] == s[1..][i - 1 := v];
      UnknownsUpdate(s[1..], i - 1, v);
    }
  }

  function UnknownRows(rows: seq<seq<Cell>>): nat {
    if rows == [] then 0 else Unknowns(rows[0]) + UnknownRows(rows[1..])
  }

  /** The number of unknown cells on the board. */
  function UnknownCells(m: Matrix): nat {
    UnknownRows(m)
  }

  lemma {:induction false} UnknownRowsUpdate(rows: seq<seq<Cell>>, i: int, row: seq<Cell>)
    requires 0 <= i < |rows|
    ensures UnknownRows(rows[i := row]) == UnknownRows(rows) - Unknowns(rows[i]) + Unknowns(row)
  {
    if i > 0 {
      assert rows[i := row][1..] == rows[1..][i - 1 := row];
      UnknownRowsUpdate(rows[1..], i - 1, row);
    }
  }

  /** Writing v at p changes the number of unknown cells by what leaves and what enters. */
  lemma UnknownCellsSet(m: Matrix, p: Coord, v: Cell)
    requires InGrid(p)
    ensures UnknownCells(Set(m, p, v)) == UnknownCells(m) - U(At(m, p)) + U(v)
  {
    UnknownsUpdate(m[p.0], p.1, v);
    UnknownRowsUpdate(m, p.0, m[p.0][p.1 := v]);
  }

  lemma {:induction false} AllUnknownRow(s: seq<Cell>)
    requires forall i :: 0 <= i < |s| ==> s[i] == Unknown
    ensures Unknowns(s) == |s|
  {
    if s != [] {
      AllUnknownRow(s[1..]);
    }
  }

  lemma {:induction false} AllUnknownRows(rows: seq<seq<Cell>>)
    requires forall i, j :: 0 <= i < |rows| && 0 <= j < |rows[i]| ==> rows[i][j] == Unknown
    requires forall i :: 0 <= i < |rows| ==> |rows[i]| == 10
    ensures UnknownRows(rows) == 10 * |rows|
  {
    if rows != [] {
      AllUnknownRow(rows[0]);
      AllUnknownRows(rows[1..]);
    }
  }

  /** A new board has all of its 100 cells unknown. */
  lemma EmptyMatrixUnknowns()
    ensures UnknownCells(EmptyMatrix()) == 100
  {
    AllUnknownRows(EmptyMatrix());
  }
}
