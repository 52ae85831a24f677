# Xiangqi board core in Dafny

This project models the non-visual core of a Unity Xiangqi game. The game is played on a 9 × 10 grid of intersections, numbered `rank * 9 + file`: files run 0..8, ranks 0..9, and indices 0..89.

- **`Qi`** (`qi.dfy`). A piece ("qi") is one byte.
  - Bits 0–4 give its type: Goong, Xut, Goo, Paow, Ma, T, Jerng.
  - Bits 5 and 6 give its colour, Red or Green.
  - `None` is zero.
  - The module gives the masks and the bit predicates. Lemmas prove that type and colour are orthogonal parts of the byte, and which constants each predicate picks out.
- **`Points`** (`points.dfy`). A `Point` is a class with:
  - a fixed grid position and board index;
  - a mutable occupant byte.
  - `MoveOutbound` and `MoveInbound` hand an occupant from one point to another. Only the occupant fields can change.
- **`Boards`** (`boards.dfy`). A `Board` owns an array of 90 points. `Valid()` first, then the operations:
  - `Valid()` requires each slot to hold its own point, with matching index and position.
  - The constructor runs `MakeBoard`. That loop fills ranks 0..4 and writes the mirror image of each point at (8 − file, 9 − rank). It is proved to produce exactly `StartingLayout()`, the layout given by `DetermineStartingQis`.
  - Lemmas give that layout's back ranks, Paow, Xut and empty ranks, colours, and central symmetry.
  - `RegisterMove` is proved to change the occupancy as `Moved(occ, from, to)` describes: the target receives the mover, then the source is emptied.
  - `Moved`'s contract says nothing else changes. Lemmas: a move onto an empty point can be undone; a move onto its own point loses the piece; a piece moved to a different point keeps the count, or lowers it by one when the target was occupied; no move raises the count.
- **`MoveHandler`** (`move_handler.dfy`). Ray traversal and the four offset tables.
  - `Traverse` recurses from an origin along one offset. It pushes points while they are on the index range and empty.
  - `TraverseInitialise` loops `Traverse` over an offset table. It can skip the table's last entry.
  - Both are proved against the specification function `Ray`: the maximal run origin, origin + offset, … of in-range empty indices. Its contract gives its arithmetic form and the point that stops it; `RayBlockedAtOrigin` says when it is empty.
- **`Players`** (`players.dfy`). The player's turn and selection logic.
  - A `Player` class has the fields `legalMoves`, `hasQiSelected` and `currentPlayer`. Its `Click` method is one frame of `Update`.
  - `Click` is proved to refine the pure state machine `Step`, over board indices.
  - `Step`'s contract states what the game promises:
    - a click with no point changes nothing;
    - a piece is selected only when its colour is the current player's;
    - every click while a piece is selected clears the selection;
    - the current player changes exactly when a move is accepted.
  - The lemma `StepNeverAddsPieces` proves that no frame adds a piece to the board.
- **`Wrappers`** (`wrappers.dfy`). `Option`.

Two things about the code decide what is modelled:
- The code has no per-piece move rules. `MoveHandler.Handle(byte)` is an empty stub and `TraverseMa` is empty, so only the ray traversal is modelled.
- The two-argument `MoveHandler.Handle(board, point)` that the player calls is not defined in `MoveHandler.cs`. `Click` receives its result as the parameter `generated`. The model assumes only that `generated` holds points of the board.

## Model

| member | source | states |
|---|---|---|
| Qi.Type | Assets/Scripts/Qi.cs:39-42 | the type is the low five bits: `x mod 32` |
| Qi.Colour | Assets/Scripts/Qi.cs:44-47 | the colour is bits 5 and 6 and bit 7 is dropped: `(x div 32 mod 4) * 32` |
| Qi.IsXutOrGoong | Assets/Scripts/Qi.cs:49-52 | holds exactly when bit 0 is set |
| Qi.IsSlidingQi | Assets/Scripts/Qi.cs:54-57 | holds exactly when bit 2 is set |
| Qi.IsDiagonalQi | Assets/Scripts/Qi.cs:59-62 | holds exactly when bit 3 is set |
| Qi.IsMa | Assets/Scripts/Qi.cs:64-67 | holds exactly when bit 4 is set |
| Qi.TypeAndColourPartition | Assets/Scripts/Qi.cs:33-47 | type and colour share no bit; together they are the byte without bit 7, so every byte below 128 is their union |
| Qi.ExtractionIdempotentAndOrthogonal | Assets/Scripts/Qi.cs:36-47 | extracting twice changes nothing; the colour of a type, and the type of a colour, are `None` |
| Qi.ComposeDecompose | Assets/Scripts/Qi.cs:19-47 | any type constant combined with Red, Green or no colour gives back that type and that colour |
| Qi.PredicatesOnTypes | Assets/Scripts/Qi.cs:19-31 | whatever the colour: IsXutOrGoong picks Goong and Xut, IsSlidingQi picks Goo and Paow, IsDiagonalQi picks T and Jerng, IsMa picks Ma, and nothing else |
| Qi.NoneIsEmpty | Assets/Scripts/Qi.cs:5 | the empty byte has no type, no colour and satisfies no predicate |
| Points.Point.constructor | Assets/Scripts/Board/Point.cs:15-20 | position, occupant and index are those given |
| Points.Point.GetQiAsByte | Assets/Scripts/Board/Point.cs:23-26 | returns the occupant and changes nothing |
| Points.Point.MoveOutbound | Assets/Scripts/Board/Point.cs:40-45 | the destination receives this point's occupant and this point becomes empty; only the two occupants change; a point moved onto itself ends empty |
| Points.Point.MoveInbound | Assets/Scripts/Board/Point.cs:47-50 | the occupant becomes the inbound byte and nothing else changes |
| Boards.IdxInverse | Assets/Scripts/Board/Board.cs:61 | `rank * 9 + file` is a bijection from the grid onto 0..89, inverted by `mod 9` and `div 9` |
| Boards.DetermineStartingQis | Assets/Scripts/Board/Board.cs:73-137 | the starting occupant of a point, following the source's decision table; a non-empty result has the colour of its half, Red on ranks 0..4 and Green above, and the result is empty exactly when its type is; the remaining properties are in BackRanks, MiddleRanks, StartingColours and MirrorSymmetry |
| Boards.StartingLayout | Assets/Scripts/Board/Board.cs:73-137 | 90 occupants, the one at `Idx(file, rank)` being `DetermineStartingQis(file, rank)` |
| Boards.StartingColours | Assets/Scripts/Board/Board.cs:77-84 | every starting piece has a declared type, is Red on ranks 0..4 and is Green on ranks 5..9 |
| Boards.BackRanks | Assets/Scripts/Board/Board.cs:81-108 | ranks 0 and 9 hold Goo, Ma, Jerng, T, Goong, T, Jerng, Ma, Goo |
| Boards.MiddleRanks | Assets/Scripts/Board/Board.cs:109-134 | Paow exactly on files 1 and 7 of ranks 2 and 7; Xut exactly on the even files of ranks 3 and 6; ranks 1, 4, 5 and 8 are empty |
| Boards.MirrorSymmetry | Assets/Scripts/Board/Board.cs:64-68 | the point reflected through the centre holds the same type in the other colour, and is empty exactly when the original is |
| Boards.PieceCountUpdate | Assets/Scripts/Board/Board.cs:50-53 | overwriting one occupant changes the number of occupied points by the difference in occupancy |
| Boards.Moved | Assets/Scripts/Board/Point.cs:40-45 | the occupancy after `RegisterMove` (Board.cs:50-53), which delegates to `MoveOutbound`: the target takes the mover, then the source is emptied, so the source ends empty, a distinct target holds the mover, and every other point is unchanged |
| Boards.MoveUndo | Assets/Scripts/Board/Board.cs:50-53 | moving onto an empty point and back restores the board |
| Boards.SelfMoveLosesPiece | Assets/Scripts/Board/Point.cs:40-45 | moving a point onto itself only empties it |
| Boards.MovedPieceCount | Assets/Scripts/Board/Board.cs:50-53 | moving a piece to another point keeps the number of pieces, and removes exactly one when the target was occupied |
| Boards.MovedNeverAdds | Assets/Scripts/Board/Board.cs:50-53 | no move increases the number of pieces, whatever its endpoints |
| Boards.Board.At | Assets/Scripts/Board/Board.cs:45-48 | the point at an index belongs to the board and has that index and position |
| Boards.Board.AllPlaced | Assets/Scripts/Board/Board.cs:55-71 | once every (file, rank) slot holds its point, every index holds the point of its own coordinates |
| Boards.Board.StartingOccupancy | Assets/Scripts/Board/Board.cs:55-71 | a valid board whose points carry the starting occupants is in the starting layout |
| Boards.Board.constructor | Assets/Scripts/Board/Board.cs:22-25 | a new board: a new array of 90 new points, valid and in the starting layout |
| Boards.Board.MakeBoard | Assets/Scripts/Board/Board.cs:55-71 | fills an empty 90-slot array with new points: every point of the board is new, the board is valid, and it is in exactly the starting layout |
| Boards.Board.PlaceWithMirror | Assets/Scripts/Board/Board.cs:59-68 | puts new points at (file, rank) and at its mirror image (8 − file, 9 − rank), with their starting occupants; every other slot is unchanged |
| Boards.Board.RegisterMove | Assets/Scripts/Board/Board.cs:50-53 | the board stays valid; the occupancy becomes `Moved(old occupancy, from, to)`; no other point changes |
| Boards.Board.QiIsNotNone | Assets/Scripts/Board/Board.cs:167-177 | returns the occupant at the index, and true exactly when it is not `None` |
| MoveHandler.TablesNonZero | Assets/Scripts/Board/MoveHandler.cs:7-10 | no offset table contains 0, so each traversal terminates |
| MoveHandler.Ray | Assets/Scripts/Board/MoveHandler.cs:45-60 | the k-th index is `origin + k * offset`; every index is in 0..89 and empty; the next step is off the index range or occupied |
| MoveHandler.RayBlockedAtOrigin | Assets/Scripts/Board/MoveHandler.cs:47-55 | the ray is empty exactly when the origin is off the index range or occupied |
| MoveHandler.Rays | Assets/Scripts/Board/MoveHandler.cs:28-43 | every index collected over several offsets is in range and empty |
| MoveHandler.RaysPrefix | Assets/Scripts/Board/MoveHandler.cs:37-40 | walking more offsets only appends to what fewer offsets collected |
| MoveHandler.Traverse | Assets/Scripts/Board/MoveHandler.cs:45-60 | appends to `legal` exactly the points of `Ray(occupancy, origin, offset)`, in order; the board is only read |
| MoveHandler.TraverseStep | Assets/Scripts/Board/MoveHandler.cs:37-40 | one loop iteration takes the points of the first i rays to those of the first i + 1 |
| MoveHandler.TraverseInitialise | Assets/Scripts/Board/MoveHandler.cs:28-43 | returns exactly the points of the rays of every offset in table order, or of all but the last when `ignoreLast` |
| Players.EndTurn | Assets/Scripts/Player/Player.cs:133-143 | the result is always Red or Green, is Green exactly when the turn was Red's, and is never the colour given |
| Players.EndTurnAlternates | Assets/Scripts/Player/Player.cs:133-143 | on the two colours ending the turn twice gives the turn back |
| Players.PickedAsWritten | Assets/Scripts/Player/Player.cs:117-119 | the guard as written: accepts grid coordinates with file 0..9 and rank 0..10 and yields `rank * 9 + file` |
| Players.PickedAsWrittenEscapes | Assets/Scripts/Player/Player.cs:117-119 | that guard yields index 90 for (0, 10) and the index of (0, 1) for (9, 0); for every rank 0..8, file 9 yields file 0 of the next rank; it yields an index of 90 or more exactly on rank 10 and at (9, 9) |
| Players.PickedPoint | Assets/Scripts/Player/Player.cs:108-126 | accepts a click exactly when its grid coordinates lie on the board, and yields the index of those coordinates |
| Players.Step | Assets/Scripts/Player/Player.cs:44-104 | no click, no change; with nothing selected a click changes the selection only, and selects exactly a piece of the current player, taking the generator's points; with a piece selected any click clears the selection; the player changes exactly when the click is a legal point other than the selected one, and the board then changes by `Moved` from that point, and is otherwise unchanged |
| Players.StepKeepsColours | Assets/Scripts/Player/Player.cs:133-143 | the current player stays Red or Green |
| Players.StepNeverAddsPieces | Assets/Scripts/Player/Player.cs:69-96 | no frame adds a piece; an accepted move of a piece onto an occupied point removes exactly one |
| Players.Player.constructor | Assets/Scripts/Player/Player.cs:20-23 | a game begins with Red to move, nothing selected and no legal points |
| Players.Player.IndicesIdentify | Assets/Scripts/Player/Player.cs:69 | among board points, membership in `legalMoves` and identity with its first point are decided by the indices |
| Players.Player.Click | Assets/Scripts/Player/Player.cs:44-126 | one frame: the new state and occupancy are exactly `Step` of the old ones on the picked index |
| Players.Player.Select | Assets/Scripts/Player/Player.cs:47-61 | the unselected branch: as `Step` with nothing selected |
| Players.Player.Respond | Assets/Scripts/Player/Player.cs:63-102 | the selected branch: as `Step` with a piece selected, `RegisterMove` included |

## Findings

| source | as written | input that shows it | evidently intended | confidence | as-written member | corrected member |
|---|---|---|---|---|---|---|
| Assets/Scripts/Player/Player.cs:117 | the mouse guard accepts `0 <= xb <= 9 && 0 <= yb <= 10` on a board of files 0..8 and ranks 0..9 | grid point (0, 10) gives index 90, past the end of the array; (9, 0) gives index 9, the point at file 0 of rank 1 on the opposite edge | accept `xb <= 8 && yb <= 9`, the points of the board | not executed; high: the index arithmetic is exact | Players.PickedAsWrittenEscapes | Players.PickedPoint |

## Left out

- Rendering and animation are not modelled. BoardUI.cs, PlayerUI.cs, the `ui.*` and `boardUI.*` calls in `Update`, the sprite dictionary and `SpawnQis` in `Board.Awake`, and `OnDrawGizmos` only draw.
- The capture tray is not modelled. On a capture, `Update` moves the captured sprite and shifts the tray position, using float vectors. That branch affects only what is drawn, so `Respond` does not call `QiIsNotNone`.
- Assets/Scripts/Player.cs is not part of this model. It is an older `Player` class without the colour gate.
- The camera and mouse are not modelled. This covers `I.Click`, `ScreenToWorldPoint` and `NearestScalar`'s float rounding. `Click` receives the rounded grid coordinates of a left click, or none.
- Float positions are not modelled. A point's position is its integer (file, rank); the `Scalar` scaling factor is dropped.
- The `Qi` object wrapper is not modelled (`new Qi(...)`, `Qi.Null`, `GetQi`, its transform). The occupant is its byte, and `Qi.Null` is `Qi.None`.
- `MoveHandler.Handle(byte)`, `SlidingtQi` and `TraverseMa` are not modelled. They are empty or discard their result, so they add no behaviour.
- The two-argument `MoveHandler.Handle` does not exist in the code and is not modelled. Its result is `Click`'s parameter.
- Boards.MirrorNumber: `Common.MirrorNumber` from the MW library is not part of this model. It is taken to reflect x within [lo, hi] as `lo + hi - x`.
- Boards.Board: the static `Board.board` array is a field of a `Board` instance, assigned once by the constructor. MakeBoard requires the fresh array to be empty, which is how `Awake` calls it.
- Points.Point.Index is a constant. In the source it is a public field, but only the constructor ever writes it.
- Boards.Board.At requires an index in 0..89. The source throws an index-out-of-range exception for any other index (Board.cs:47), and exceptions are not modelled.
- Boards.Board.QiIsNotNone requires an index in 0..89 for the same reason (Board.cs:169). Its only caller, Player.cs:71, passes a point's own index, which always lies in that range.
- Boards.Board.RegisterMove: the occupancy relation is stated only when both points belong to the board. The source accepts any two points; then only the two occupants change, and that is stated.
- MoveHandler.Traverse requires a non-zero offset. With offset 0 on an empty in-range point, the source recurses until the stack overflows. Every table in MoveHandler.cs is non-zero (`TablesNonZero`).
- MoveHandler.Traverse: `origin + offset` is unbounded here. With the tables' offsets and a board index as origin, the 32-bit sum cannot overflow.
- Players.Player.Click filters clicks through the corrected guard `PickedPoint` of the Findings table, not the guard the source runs (Player.cs:117). The two differ on these inputs. (9, 2) with nothing selected and Red to move: the source picks `At(27)`, the Red Xut at (0, 3), and selects it, while the model ignores the click. (0, 10): the source's `At(90)` throws, while the model ignores the click.
- Players.Player.Click requires the generator's points to be points of the board. That is the only assumption made about the missing generator.
- Players.Player.Respond makes the same state changes as the source, in the same order. `Click` splits the two branches of `Update` into `Select` and `Respond`; this changes nothing in the state.
