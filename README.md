# Bimaru solver board model

This project models the core of a Bimaru (battleship solitaire) solver in Dafny. A puzzle
is a 10x10 grid. Each row and each column has a counter giving how many of its cells hold
ships. The fleet is fixed: one battleship (4 cells), two cruisers (3), three destroyers (2)
and four submarines (1). Ships may not touch, not even diagonally. Hints fix some cells in
advance. Each hint is a water, a circle (a submarine), a ship end (top, bottom, left or
right) or a middle piece.

The solver keeps a `Board` object that it updates in place. The board holds:
- the cell matrix;
- the remaining row and column counters (`row_values` and `col_values`);
- the inventory of ships still to place;
- the number of free positions and of pieces left;
- the hint bookkeeping.

Board methods write waters, single pieces and whole ships. They also draw the water
deductions a clue implies and fill every line whose counter has reached 0 with water. On
top of the board, a search problem (`Bimaru`) lists the placements of the largest ship
still to place (`actions`). It applies one placement to a deep copy of the board
(`result`) and tests for a solved board (`goal_test`). States carry an id drawn from a
class-wide counter.

The model has two layers:
- **The board as a value.** Modules `Cells`, `Waters`, `Pieces`, `Hints` and `Placement`
  define the board's fields as the datatype `BoardData`. Each operation is a function on
  it, and lemmas state what the operations promise.
- **The board as an object.** Module `Boards` is the class `Board`. Its fields are the
  source's fields, and its methods update them in place with the source's loops. Each
  method is proved to leave `Data()` equal to its function applied to the old state.
  Module `Search` holds the state and problem classes, whose methods are proved against
  the same functions.

Modules `Lines` and `Touch` state two more invariants of the board value and prove which
operations keep them.

Four invariants of the board are stated, each with the operations proved to keep it:
- `FreeCounted`: `free_positions` equals the number of unknown cells. A new board has it.
  `result` keeps it for every action `actions` offers, and so do fill_waters and
  test-then-water. insert_water keeps it unless it overwrites a ship piece, which puts the
  count off by one (`Waters.InsertWaterDrift`). A piece insertion keeps it when the piece's
  cell is unknown and it waters no ship piece (`Pieces.PlacePieceDrift`). A ship insertion
  keeps it when the ship's cells are unknown and no ship piece lies around them
  (`Pieces.InsertShipDrift`). A clue deduction keeps it when no ship piece lies where it
  waters unconditionally (`Pieces.ClueWatersDrift`).
- `PiecesCounted`: `pieces_left` equals the number of ship cells the inventory still holds.
  A new board has it, and ship insertion, `result`, one hint and `handle_hints` keep it.
- `LinesCounted`: each row and column counter equals its target minus the ship pieces in
  that line. A new board has it, and fill_waters, ship insertion on a clear span and
  `result` of an offered action keep it. A clue deduction on an unknown clue cell keeps
  it (`Lines.ClueWatersLines`). A clue deduction on a cell that already holds its piece
  does not (see Findings).
- `NoTouch`: two neighbouring ship pieces always continue into each other, so ships never
  touch, not even diagonally. A new board has it. fill_waters, insert_water, insert_circle,
  ship insertion, the clue deductions, one hint, `handle_hints` and `result` keep it.

Where the source raises an exception, the model returns `None`:
- `list.remove` of a clue's continuation cell that lies off the board;
- `0.upper()` on an unknown hint cell in `all_hints_placed`;
- `max()` of an empty inventory.

Where the source would index the matrix off the board, the operation either requires an
on-board position or returns `None`.

Three behaviours of the code are modelled as written:
- **Length-1 action.** The length-1 action (`bimaru.py:702-705`) accepts unknown
  neighbours. It rejects only neighbouring ship pieces.
- **Vertical length query.** The vertical length query loops over `range(4)` whatever
  ships are left (see Findings).
- **Runtime errors.** The code raises in the cases listed above, which the model returns
  as `None`.

## Model

| member | source | states |
|---|---|---|
| Cells.GetValue | bimaru.py:520-528 | `None` (the source's -1) exactly for positions off the board, otherwise the cell's value |
| Cells.AdjacentCoordsExact | bimaru.py:565-583 | get_all_adjacent_coords lists exactly the on-board cells at king's-move distance 1 |
| Cells.IsFree | bimaru.py:516-518 | is_free_position holds exactly for a position on the board whose cell is unknown |
| Cells.NoShipAroundMeaning | bimaru.py:553-563 | the test can_place_* makes on get_all_adjacent_values (no ship piece among the adjacent values, bimaru.py:495-496) holds iff no on-board neighbour holds a ship piece |
| Cells.EmptyMatrixUnknowns | bimaru.py:59-66 | the zero matrix of a new board has 100 unknown cells, matching free_positions = 100 |
| Waters.NewBoard | bimaru.py:58-67 | a new board is all unknown, has the given counters and empty bookkeeping, and satisfies both board invariants (100 free positions, 20 pieces for 1x4 + 2x3 + 3x2 + 4x1) |
| Waters.InsertWater | bimaru.py:137-141 | the cell becomes water, no other cell changes, free_positions drops by one unless the cell was water already, and counters are untouched |
| Waters.InsertWaterIdempotent | bimaru.py:137-141 | a second insert_water on the same cell changes nothing |
| Waters.InsertWaterDrift | bimaru.py:137-141 | insert_water keeps free_positions equal to the unknown count, except that overwriting a ship piece puts it off by one |
| Waters.FloodAll | bimaru.py:311-312 | after watering a list of cells, exactly the listed cells are water and all other cells and counters are as before |
| Waters.FloodAllFree | bimaru.py:311-312 | watering a list of cells takes one free position for each distinct listed cell that was not water yet |
| Waters.FloodAllDrift | bimaru.py:293-294 | watering cells none of which holds a ship keeps free_positions exact |
| Waters.FloodFree | bimaru.py:267-269 | test-then-water over a list: exactly the listed cells that were unknown become water, positions off the board are ignored |
| Waters.FloodFreeDrift | bimaru.py:267-269 | test-then-water always keeps free_positions exact |
| Waters.RowCoords | bimaru.py:151-155 | the cells fill_water_row visits are exactly the ten cells of the row |
| Waters.ColCoords | bimaru.py:157-161 | the cells fill_water_col visits are exactly the ten cells of the column |
| Waters.FillFrom | bimaru.py:145-149 | iterations idx..9 of fill_waters water exactly the unknown cells of rows and columns from idx on whose counter is 0 |
| Waters.FillFromDrift | bimaru.py:145-149 | those iterations keep free_positions exact |
| Waters.FillWaters | bimaru.py:143-149 | fill_waters waters exactly the unknown cells lying in a row or column whose counter is 0; counters and bookkeeping are unchanged |
| Waters.FillWatersEffect | bimaru.py:143-149 | after fill_waters no zero-counter line has an unknown cell, no ship piece changed, and free_positions is exactly as far from the unknown count as before |
| Waters.FillWatersFilled | bimaru.py:143-149 | after fill_waters no row or column whose counter is 0 has an unknown cell |
| Waters.FillWatersNoop | bimaru.py:143-149 | on a board whose zero-counter lines have no unknown cell, fill_waters changes nothing |
| Waters.FillWatersIdempotent | bimaru.py:143-149 | a second fill_waters right after the first changes nothing |
| Pieces.Without | bimaru.py:379-387 | removing the continuation cells keeps exactly the listed cells that are not continuations of the piece |
| Pieces.Targets | bimaru.py:307-309 | every cell a piece insertion waters is an on-board neighbour that is not a continuation of the piece |
| Pieces.TargetsExact | bimaru.py:307-309 | the watered list is exactly the on-board neighbours of the piece minus its continuation cells |
| Pieces.PlacePiece | bimaru.py:281-392 | a piece insertion writes the piece and waters every other neighbour except its continuations. It takes one from its row and column counters and from pieces_left, and one submarine for a circle. The hint bookkeeping is untouched |
| Pieces.PlacePieceFree | bimaru.py:281-392 | a piece insertion takes one free position for the piece and one for each cell it waters that was not water yet |
| Pieces.PlacePieceDrift | bimaru.py:281-392 | on an unknown cell with no ship among the cells it waters, a piece insertion keeps free_positions exact |
| Pieces.ShipPiecesShape | bimaru.py:415-453 | the pieces insert_ship_* inserts: len of them, the first at the ship's origin, each one step further along the ship, a lone circle or the first end, middles and the last end |
| Pieces.ShipOfOne | bimaru.py:417-418 | inserting a length-1 ship is one circle insertion |
| Pieces.ShipOfTwo | bimaru.py:419-422 | inserting a destroyer is its two end pieces, then one destroyer fewer |
| Pieces.ShipOfThree | bimaru.py:423-427 | inserting a cruiser is end, middle, end, then one cruiser fewer |
| Pieces.ShipOfFour | bimaru.py:428-433 | inserting a battleship is end, two middles, end, then one battleship fewer |
| Pieces.TargetsOfPiece | bimaru.py:298-392 | a ship's piece waters exactly its neighbours that are not cells of the ship and, for a middle piece, not beside it across the ship |
| Pieces.InsertShipCells | bimaru.py:415-453 | after inserting a ship its cells hold its pieces in order. Every other cell of the surrounding box is water, and every cell outside the box is unchanged |
| Pieces.InsertShipLine | bimaru.py:415-453 | each row and column counter drops by the number of ship cells in that line |
| Pieces.InsertShipTotals | bimaru.py:415-453 | inserting a ship takes one ship of its length from the inventory and len from pieces_left; the hint bookkeeping is untouched |
| Pieces.InsertShipCounts | bimaru.py:415-453 | all counter, inventory and pieces_left effects of a ship insertion at once, and the pieces invariant is kept |
| Pieces.InsertShipDrift | bimaru.py:415-453 | a ship on free cells with no ship around them keeps free_positions exact |
| Pieces.Beyond | bimaru.py:171-175 | the cells watered if still free lie within two steps of the clue and never on the clue itself |
| Pieces.RetractCol | bimaru.py:177-180 | when the column counter is 1, the column's unknown cells become water and the clue cell is reset to unknown; otherwise nothing changes |
| Pieces.RetractRow | bimaru.py:182-185 | the same for the row |
| Pieces.ClueNeighbours | bimaru.py:164-169 | an end clue waters exactly its on-board neighbours other than its continuation; a middle clue waters none |
| Pieces.ClueWatersCell | bimaru.py:163-279 | the value each cell holds after a clue deduction, stage by stage |
| Pieces.ClueWatersCounts | bimaru.py:163-279 | a clue deduction changes no counter, inventory or bookkeeping |
| Pieces.ClueWatersEffect | bimaru.py:163-279 | a clue deduction does the following and changes nothing else: (1) an end clue's neighbours except the continuation become water; (2) the cells two steps beyond become water if unknown; (3) a line whose counter is 1 is watered; (4) the clue cell is reset to unknown when such a line is watered. Every other cell, the continuation included, becomes water exactly when it was unknown and lies beyond or in a watered line; otherwise it keeps its value, so ship pieces survive |
| Pieces.RetractColDrift | bimaru.py:177-180 | the column retraction keeps free_positions exact |
| Pieces.RetractRowDrift | bimaru.py:182-185 | the row retraction keeps free_positions exact |
| Pieces.ClueWatersDrift | bimaru.py:163-279 | with no ship among the cells it waters unconditionally, a clue deduction keeps free_positions exact |
| Hints.ShipOrFail | bimaru.py:79-107 | a ship a hint completes is inserted exactly when it lies on the board |
| Hints.ClueOrFail | bimaru.py:163-166 | a clue deduction succeeds exactly when the continuation cell is on the board (list.remove raises otherwise) |
| Hints.HintMove | bimaru.py:70-109 | the branch a hint takes. A T, B, L or R hint completes a destroyer, in its own direction, exactly when the hint lies one cell from the far edge or its line counter is 2. An M hint completes a cruiser exactly when it lies on an edge row or column whose counter is 3, along that edge. Otherwise the hint draws the clue's waters. A completed ship holds the hint's piece in the hint's cell |
| Hints.RecordedPositionsMeaning | bimaru.py:70-78 | a position is recorded iff some C or W hint has it; a single hint records its position exactly when it is C or W |
| Hints.RecordedPositionsAppend | bimaru.py:69-78 | the positions are recorded in hint order: those of a concatenation of hint lists are the concatenation of theirs |
| Hints.HintStepSettles | bimaru.py:70-107 | a hint that is marked or completes a ship leaves its own piece in its cell |
| Hints.ShipHintCell | bimaru.py:79-107 | each cell of an inserted ship holds the piece of its offset |
| Hints.HintStepClue | bimaru.py:79-109 | a clue hint changes no counter, and its cell is left as it was or reset to unknown |
| Hints.HintStepCounts | bimaru.py:70-109 | one hint records its position exactly for C and W, and keeps the pieces invariant |
| Hints.HandleHintsRecords | bimaru.py:69-110 | handle_hints takes one from num_hints_placed and appends the position for each C and W hint, in order |
| Hints.HandleHintsPieces | bimaru.py:69-110 | handle_hints keeps pieces_left equal to the cells the inventory holds |
| Hints.HandleHintsFilled | bimaru.py:69-110 | after handle_hints with at least one hint, no zero-counter line has an unknown cell |
| Hints.InsertValueCell | bimaru.py:394-411 | insert_value leaves the value in its cell, and no zero-counter line keeps an unknown cell |
| Hints.InsertValueCounts | bimaru.py:394-411 | insert_value takes one from pieces_left exactly for a ship piece; a circle or water keeps the pieces invariant |
| Hints.HintsMatchMeaning | bimaru.py:619-626 | all_hints_placed is true iff every hint's cell holds its piece (and no hint has an unknown letter), and it answers whenever no hint cell is unknown |
| Hints.GoalTestMeaning | bimaru.py:737-748 | goal_test is true iff the inventory is empty and every hint's cell holds its piece, and it answers whenever no hint cell is unknown |
| Hints.CompleteHasNoPieces | bimaru.py:613-617 | a complete board with the pieces invariant has no piece left |
| Placement.CanPlaceMeaning | bimaru.py:485-512 | can_place_*_ship holds iff: (1) the line's counter admits the length; (2) every ship cell is on the board, unknown, and in a crossing line that still wants a cell; (3) no neighbour of any ship cell holds a piece |
| Placement.CanPlaceClear | bimaru.py:485-512 | a ship that can be placed lies on the board, on free cells with no ship around them |
| Placement.Largest | bimaru.py:672-674 | the largest length with a ship left, or `None` when none is left (max() raises) |
| Placement.RunFromMeaning | bimaru.py:461-467 | the loop counts the longest prefix of passing cells, stopping at the first failing cell or the bound |
| Placement.MaxShipLengthMeaning | bimaru.py:457-482 | within the loop's bound, a length is at most what get_max_ship_length_* reports iff can_place_*_ship accepts it |
| Placement.MaxShipLengthWithinMeaning | bimaru.py:470-482 | the evidently intended vertical query never exceeds the largest ship left, equals the horizontal query, and reports exactly the longest placeable ship |
| Placement.VerticalBoundQuirk | bimaru.py:470-482 | with only destroyers left on an empty board, the vertical query as written reports 4 while the horizontal one reports 2 |
| Placement.CountFreeLines | bimaru.py:683-690 | the free-cell sums the pruning of actions compares against the counters are the numbers of unknown cells of row i and of column i |
| Placement.RowActionsSkipped | bimaru.py:686-687 | a row whose counter is 0 contributes no action |
| Placement.CellActionsMeaning | bimaru.py:695-713 | a cell's actions are exactly the allowed placements of the largest ship with that cell as origin |
| Placement.RowActionsMeaning | bimaru.py:689-713 | a row's actions are exactly the allowed placements with origin in that row |
| Placement.RowsActionsMeaning | bimaru.py:681-713 | the actions of the first n rows are exactly the allowed placements with origin in them |
| Placement.ActionsMeaning | bimaru.py:662-714 | an action is offered iff actions does not return early and the action is an allowed placement of the largest remaining ship |
| Placement.ActionsEmpty | bimaru.py:668-678 | each of the three early returns (too few free positions, no ship left, no line long enough) gives no action |
| Placement.ActionFits | bimaru.py:662-714 | every offered action lies on the board, on free cells with no ship around them |
| Placement.ResultCounts | bimaru.py:716-735 | result takes one ship of the action's length and len pieces, and keeps the pieces invariant |
| Placement.ResultDrift | bimaru.py:716-735 | on a clear span, result keeps free_positions exact and leaves no unknown cell in a zero-counter line |
| Placement.ActionKeepsInvariants | bimaru.py:662-735 | every offered action can be applied, and its result keeps both board invariants |
| Boards.Board.constructor | bimaru.py:58-67 | the new board's fields are those of NewBoard, with the given hints |
| Boards.Board.Copy | bimaru.py:726 | the deep copy has the same contents and hints as the original |
| Boards.Board.InsertWater | bimaru.py:137-141 | the in-place insert_water leaves the board as Waters.InsertWater describes |
| Boards.Board.WaterIfFree | bimaru.py:154-155 | the in-place test-then-water step |
| Boards.Board.FloodAll | bimaru.py:311-312 | the in-place loop over insert_water leaves the board as Waters.FloodAll describes |
| Boards.Board.FloodFree | bimaru.py:267-269 | the in-place test-then-water loop leaves the board as Waters.FloodFree describes |
| Boards.Board.FillWaterRow | bimaru.py:151-155 | fill_water_row in place |
| Boards.Board.FillWaterCol | bimaru.py:157-161 | fill_water_col in place |
| Boards.Board.FillWaters | bimaru.py:143-149 | the in-place fill_waters loop leaves the board as Waters.FillWaters describes |
| Boards.Board.Stamp | bimaru.py:284-289 | the field updates of a piece insertion before its waters |
| Boards.Board.InsertPiece | bimaru.py:281-392 | insert_circle and insert_*_piece in place leave the board as PlacePiece describes |
| Boards.Board.InsertShip | bimaru.py:415-453 | the in-place piece calls, then one ship fewer, leave the board as Pieces.InsertShip describes |
| Boards.Board.Sink | bimaru.py:422 | one ship of the given length fewer |
| Boards.Board.Retract | bimaru.py:179-180 | the clue cell reset to unknown and one more free position |
| Boards.Board.InsertClueWaters | bimaru.py:163-279 | the in-place insert_*_waters leave the board as ClueWaters describes |
| Boards.Board.RetractCol | bimaru.py:177-180 | the column retraction in place |
| Boards.Board.RetractRow | bimaru.py:182-185 | the row retraction in place |
| Boards.Board.Record | bimaru.py:73-74 | num_hints_placed -= 1 and the position appended |
| Boards.Board.ShipOrFail | bimaru.py:80-81 | inserts the ship a hint completes and reports success exactly when it fits |
| Boards.Board.ClueOrFail | bimaru.py:82-83 | draws a clue's waters and reports success exactly when the continuation is on the board |
| Boards.Board.HandleHint | bimaru.py:70-109 | one hint in place, as HintStep describes; false where the source raises or would wrap a negative index |
| Boards.Board.EndHint | bimaru.py:79-98 | the T, B, L and R branches in place, as HintStep describes |
| Boards.Board.MiddleHint | bimaru.py:99-109 | the M branch in place, as HintStep describes |
| Boards.Board.Play | bimaru.py:70-109 | the move a hint chose, carried out in place |
| Boards.Board.HandleHints | bimaru.py:69-110 | the in-place handle_hints loop ends as Hints.HandleHints describes; false where the source raises or would wrap a negative index |
| Boards.Board.InsertValue | bimaru.py:394-411 | insert_value in place leaves the board as Hints.InsertValue describes |
| Boards.Board.CanPlaceShip | bimaru.py:485-512 | the early-exit loop answers exactly CanPlace |
| Boards.Board.GetMaxShipLength | bimaru.py:457-482 | the breaking loop returns exactly MaxShipLength, or `None` where max() raises |
| Boards.Board.AllHintsPlaced | bimaru.py:619-626 | the loop over hints returns exactly HintsMatch |
| Search.Ids.constructor | bimaru.py:33 | the state counter starts at the given value |
| Search.State.constructor | bimaru.py:35-38 | a new state takes the counter's value as its id and advances the counter by one |
| Search.Bimaru.constructor | bimaru.py:656-659 | the problem keeps the initial state and its board |
| Search.Bimaru.Actions | bimaru.py:662-714 | the actions the loops build are exactly Placement.Actions of the state's board |
| Search.Bimaru.ScanRows | bimaru.py:681-693 | the row loop prunes exactly when a row (or, during row 0, a column) has fewer free cells than its counter, and otherwise collects every row's actions |
| Search.Bimaru.ScanRow | bimaru.py:689-713 | the column loop of one row prunes exactly on row 0 with a short column, and otherwise collects the row's actions |
| Search.Bimaru.CellActions | bimaru.py:695-713 | the actions appended for one cell |
| Search.Bimaru.Result | bimaru.py:716-735 | result returns a fresh state on a fresh board holding Placement.Result of the old board. The state gets the next id, and the given state's board is left unchanged |
| Search.Bimaru.Apply | bimaru.py:726-733 | the ship insertion and fill_waters on the copied board |
| Lines.NewBoardLines | bimaru.py:58-67 | a new board's counters are the targets minus the ship pieces of each line (none yet) |
| Lines.FillWatersLines | bimaru.py:143-149 | the counter invariant holds after fill_waters exactly when it held before |
| Lines.InsertShipLines | bimaru.py:415-453 | a ship inserted on free cells with no ship around them keeps the counter invariant |
| Lines.ResultKeepsLines | bimaru.py:716-735 | the result of every action actions offers keeps the counter invariant |
| Lines.ClueErasesPiece | bimaru.py:177-185 | a clue deduction on a cell holding its piece, with a line counter of 1, resets the cell to unknown and breaks the counter invariant |
| Lines.HintsEraseBottom | bimaru.py:187-209 | in handle_hints (bimaru.py:69-110), with column 3 wanting 2 and row 4 wanting 2 on an empty board, the hint T at (3, 3) alone keeps the invariant with a bottom piece at (4, 3), while T at (3, 3) then B at (4, 3) ends with water at (4, 3) and the invariant broken |
| Lines.ClueWatersLines | bimaru.py:163-279 | a clue deduction on an unknown clue cell keeps the counter invariant, given no ship lies where an end clue waters unconditionally |
| Lines.FixedClueStepLines | bimaru.py:79-109 | the corrected hint step leaves a clue hint's cell alone when it already holds its piece, is the source's deduction on an unknown cell, and keeps the counter invariant either way |
| Lines.FixedHintsKeepBottom | bimaru.py:69-110 | under the corrected step, the hints T at (3, 3) then B at (4, 3) end exactly as T alone: the bottom piece stays and the counter invariant holds |
| Touch.NewBoardNoTouch | bimaru.py:58-67 | a new board has no touching ships |
| Touch.FillWatersNoTouch | bimaru.py:143-149 | no ships touch after fill_waters exactly when none touched before |
| Touch.InsertWaterNoTouch | bimaru.py:137-141 | insert_water keeps ships from touching |
| Touch.CircleNoTouch | bimaru.py:281-296 | insert_circle keeps ships from touching, because it waters all eight neighbours |
| Touch.ClueWatersNoTouch | bimaru.py:163-279 | a clue deduction keeps ships from touching |
| Touch.InsertShipNoTouch | bimaru.py:415-453 | inserting a ship anywhere on the board keeps ships from touching, because the box around it becomes water |
| Touch.HintStepNoTouch | bimaru.py:70-109 | one hint of handle_hints keeps ships from touching |
| Touch.HandleHintsNoTouch | bimaru.py:69-110 | handle_hints keeps ships from touching whenever it succeeds |
| Touch.ResultNoTouch | bimaru.py:716-735 | the result of every action actions offers keeps ships from touching |
| Search.Bimaru.GoalTest | bimaru.py:737-748 | goal_test returns exactly Hints.GoalTest, which is true iff the inventory is empty and every hint holds |

## Findings

| source | as written | input that shows it | evidently intended | confidence | as-written member | corrected member |
|---|---|---|---|---|---|---|
| bimaru.py:187-209 | after a "T" hint has completed a destroyer, the "B" hint on its bottom cell takes the clue branch, and the row retraction resets that cell to unknown with `self.matrix[row, col] = 0`, erasing the placed piece; fill_waters then waters it | column 3 wanting 2, row 4 wanting 2, hints T at (3, 3) and B at (4, 3) on an empty board: (4, 3) ends as water, and row 4's counter no longer matches its ship pieces | a clue hint whose cell already holds its piece draws no deductions, because the retraction of a line whose counter is 1 assumes the piece is not counted yet; T then B then ends as T alone | medium, not executed | Lines.HintsEraseBottom | Lines.FixedHintsKeepBottom |
| bimaru.py:470-482 | the vertical loop runs over `range(4)`, so `limit` (the largest ship left) is computed but unused | only destroyers left, all cells unknown, every counter 4: the vertical query at (0, 0) reports 4 while the horizontal one reports 2 | `range(limit)`, as in get_max_ship_length_horizontal | medium, not executed | Placement.VerticalBoundQuirk | Placement.MaxShipLengthWithinMeaning |

`Boards.Board.GetMaxShipLength` models the query as written. Likewise `Hints.HandleHints`
and `Boards.Board.HandleHints` use the hint step as written. `Lines.FixedHintStep` and
`Lines.FixedHandleHints` are the corrected step and loop. They differ from the source's
only on a clue hint whose cell already holds its piece (`Lines.FixedClueStepLines`). The corrected
`Placement.MaxShipLengthWithin` is not called by anything else, because no other part of
the source calls the query either.

## Left out

- parse_instance reads standard input; the model starts from a constructed Board. `__str__`, `main` and the printer are output only.
- The tree-search algorithms of the search library, the `Problem` base class and the `h` heuristic are not part of this model.
- BimaruState's `__lt__`, `__eq__`, `__hash__` and `__str__` only compare, hash or print states.
- find_largest_vertical_ship and find_largest_horizontal_ship are never called by the core.
- The second test of all_hints_placed compares a lower-case cell with an upper-case hint, so it never fires and its bookkeeping is not modelled.
- numpy arrays are a sequence of ten sequences of ten cells. A negative index would wrap around in numpy and an index of 10 or more would raise. Operations that index the matrix directly require an on-board position. The hint and goal-test paths return `None` instead.
- copy.deepcopy is the `Copy` constructor: a new Board whose fields hold the same values.
- The class-wide `BimaruState.state_id` is an `Ids` object passed to the constructor.
- The five insert_*_piece methods and insert_circle are one method, `InsertPiece`, with the piece as a parameter. The five insert_*_waters methods are one method, `InsertClueWaters`.
- Boards.Board.MiddleHint: the source's four `M` branches are merged into two, because the two row branches insert the same ship, and so do the two column branches.
- Boards.Board.HandleHint: returns false where the source raises. The board's state after a false result is not specified.
- Boards.Board.HandleHints: stops at the first hint that would raise. The board's state after a false result is not specified.
- Search.Bimaru.Result: requires the action's ship to lie on the board. Every action that actions offers does, by Placement.ActionFits.
- insert_value is not proved to keep `Touch.NoTouch`: one end piece does not water its continuation cell, so on its own it can leave a piece that does not continue into its neighbour. Only the solver's setup and search steps are proved to keep the rule.
- Integers are unbounded; the source's Python integers are too, so nothing wraps.
