/**
 * The turn and selection logic of the player: nothing selected, or a piece
 * selected together with the points it may move to. A click on a point of the
 * current player's colour selects it; a click on one of its legal points other
 * than the piece's own moves it there and ends the turn; any click while a
 * piece is selected clears the selection.
 */
module Players {
  import Qi
  import opened Points
  import opened Boards
  import opened Wrappers

  /** Passes the turn: Red to Green, anything else to Red. */
  function EndTurn(player: bv8): (next: bv8)
    ensures next == Qi.R || next == Qi.G
    ensures next == Qi.G <==> player == Qi.R
    ensures next != player
  {
    if player == Qi.R then Qi.G else Qi.R
  }

  /** On the two colours EndTurn is an involution without fixed points. */
  lemma EndTurnAlternates(player: bv8)
    requires player == Qi.R || player == Qi.G
    ensures EndTurn(EndTurn(player)) == player
    ensures EndTurn(player) == (if player == Qi.R then Qi.G else Qi.R)
  {
  }

  /**
   * The board index the mouse guard lets through, as written: the grid
   * coordinates are accepted up to file 9 and rank 10.
   */
  function PickedAsWritten(cell: Option<(int, int)>): (picked: Option<int>)
    ensures picked.Some? <==> cell.Some? && 0 <= cell.value.0 <= 9 && 0 <= cell.value.1 <= 10
    ensures picked.Some? ==> picked.value == cell.value.1 * 9 + cell.value.0
  {
    if cell.Some? && cell.value.0 >= 0 && cell.value.0 <= 9 && cell.value.1 >= 0 && cell.value.1 <= 10
    then Some(cell.value.1 * 9 + cell.value.0)
    else None
  }

  /** The as-written guard lets grid point (x, y) through with an index past the last point. */
  predicate PastLastPoint(x: int, y: int) {
    var picked := PickedAsWritten(Some((x, y)));
    picked.Some? && picked.value >= 90
  }

  /**
   * The as-written guard admits indices past the last point: the whole of
   * rank 10, and (9, 9). On every other rank, file 9 names file 0 of the next rank.
   */
  lemma PickedAsWrittenEscapes()
    ensures PickedAsWritten(Some((0, 10))) == Some(90)
    ensures PickedAsWritten(Some((9, 0))) == Some(Idx(0, 1))
    ensures forall y :: 0 <= y <= 8 ==> PickedAsWritten(Some((9, y))) == Some(Idx(0, y + 1))
    ensures forall x, y :: PastLastPoint(x, y) <==> (y == 10 && 0 <= x <= 9) || (x == 9 && y == 9)
  {
  }

  /**
   * The board index under the mouse: accepted exactly when the grid
   * coordinates lie on the board, and then the point of those coordinates.
   */
  function PickedPoint(cell: Option<(int, int)>): (picked: Option<int>)
    ensures picked.Some? <==> cell.Some? && 0 <= cell.value.0 < 9 && 0 <= cell.value.1 < 10
    ensures picked.Some? ==> 0 <= picked.value < 90
    ensures picked.Some? ==> picked.value % 9 == cell.value.0 && picked.value / 9 == cell.value.1
  {
    if cell.Some? && 0 <= cell.value.0 < 9 && 0 <= cell.value.1 < 10 then
      IdxInverse(cell.value.0, cell.value.1);
      Some(Idx(cell.value.0, cell.value.1))
    else None
  }

  /** The player's state in board indices. */
  datatype Turn = Turn(selected: bool, current: bv8, legal: seq<int>)

  /** A state and the board occupancy beside it. */
  datatype Outcome = Outcome(turn: Turn, occ: seq<bv8>)

  predicate InRange(idx: seq<int>) {
    forall k :: 0 <= k < |idx| ==> 0 <= idx[k] < 90
  }

  /** The click `picked` in state `t` is a move: a legal point other than the selected one. */
  predicate Accepted(t: Turn, picked: Option<int>) {
    t.selected && picked.Some? && picked.value in t.legal && picked.value != t.legal[0]
  }

  /**
   * One frame of the player. `generated` is what the move generator returns
   * for the clicked point.
   */
  function Step(t: Turn, occ: seq<bv8>, picked: Option<int>, generated: seq<int>): (o: Outcome)
    requires |occ| == 90 && InRange(t.legal) && InRange(generated)
    requires picked.Some? ==> 0 <= picked.value < 90
    ensures picked.None? ==> o == Outcome(t, occ)
    ensures !t.selected ==> o.occ == occ && o.turn.current == t.current
    ensures !t.selected ==> (o.turn.selected <==> picked.Some? && Qi.Colour(occ[picked.value]) == t.current)
    ensures !t.selected && !o.turn.selected ==> o.turn == t
    ensures !t.selected && o.turn.selected ==> o.turn.legal == generated
    ensures t.selected && picked.Some? ==> !o.turn.selected && o.turn.legal == []
    ensures o.turn.current != t.current <==> Accepted(t, picked)
    ensures Accepted(t, picked) ==> o.turn.current == EndTurn(t.current) && o.occ == Moved(occ, t.legal[0], picked.value)
    ensures !Accepted(t, picked) ==> o.occ == occ
    ensures InRange(o.turn.legal)
  {
    match picked
    case None => Outcome(t, occ)
    case Some(i) =>
      if !t.selected then
        if Qi.Colour(occ[i]) == t.current then Outcome(Turn(true, t.current, generated), occ)
        else Outcome(t, occ)
      else if i in t.legal && i != t.legal[0] then
        Outcome(Turn(false, EndTurn(t.current), []), Moved(occ, t.legal[0], i))
      else
        Outcome(Turn(false, t.current, []), occ)
  }

  /** The current player is always one of the two colours. */
  lemma StepKeepsColours(t: Turn, occ: seq<bv8>, picked: Option<int>, generated: seq<int>)
    requires |occ| == 90 && InRange(t.legal) && InRange(generated)
    requires picked.Some? ==> 0 <= picked.value < 90
    requires t.current == Qi.R || t.current == Qi.G
    ensures var c := Step(t, occ, picked, generated).turn.current; c == Qi.R || c == Qi.G
  {
  }

  /** No frame adds a piece to the board; an accepted move onto an occupied point removes one. */
  lemma StepNeverAddsPieces(t: Turn, occ: seq<bv8>, picked: Option<int>, generated: seq<int>)
    requires |occ| == 90 && InRange(t.legal) && InRange(generated)
    requires picked.Some? ==> 0 <= picked.value < 90
    ensures PieceCount(Step(t, occ, picked, generated).occ) <= PieceCount(occ)
    ensures Accepted(t, picked) && occ[t.legal[0]] != Qi.None && occ[picked.value] != Qi.None ==>
      PieceCount(Step(t, occ, picked, generated).occ) == PieceCount(occ) - 1
  {
    if Accepted(t, picked) {
      MovedNeverAdds(occ, t.legal[0], picked.value);
      if occ[t.legal[0]] != Qi.None {
        MovedPieceCount(occ, t.legal[0], picked.value);
      }
    }
  }

  /** The board indices of a sequence of points. */
  function Indices(ps: seq<Point>): (idx: seq<int>)
    ensures |idx| == |ps|
    ensures forall k :: 0 <= k < |ps| ==> idx[k] == ps[k].Index
  {
    if ps == [] then [] else [ps[0].Index] + Indices(ps[1..])
  }

  class Player {
    /** The board played on. */
    const board: Board
    /** The selected piece's point first, then the points it may move to. */
    var legalMoves: seq<Point>
    var hasQiSelected: bool
    var currentPlayer: bv8

    /** The legal points are points of the board. */
    ghost predicate Valid()
      reads this, board, board.board, board.Cells
    {
      && board.Valid()
      && (forall k :: 0 <= k < |legalMoves| ==> legalMoves[k] in board.Cells)
    }

    /** The state in board indices. */
    ghost function State(): (t: Turn)
      requires Valid()
      reads this, board, board.board, board.Cells
      ensures InRange(t.legal)
    {
      Turn(hasQiSelected, currentPlayer, Indices(legalMoves))
    }

    /** A game begins with Red to move and nothing selected. */
    constructor (b: Board)
      requires b.Valid()
      ensures board == b && Valid()
      ensures State() == Turn(false, Qi.R, [])
    {
      board := b;
      legalMoves := [];
      hasQiSelected := false;
      currentPlayer := Qi.R;
    }

    /** Among board points, membership and identity follow the indices. */
    lemma IndicesIdentify(ps: seq<Point>, p: Point)
      requires board.Valid() && p in board.Cells
      requires forall k :: 0 <= k < |ps| ==> ps[k] in board.Cells
      ensures p in ps <==> p.Index in Indices(ps)
      ensures ps != [] ==> (p == ps[0] <==> p.Index == Indices(ps)[0])
    {
    }

    /**
     * One frame: `cell` is the grid point under a left click, if there was one,
     * and `generated` the move generator's result for the clicked point.
     */
    method Click(cell: Option<(int, int)>, generated: seq<Point>)
      requires Valid()
      requires forall k :: 0 <= k < |generated| ==> generated[k] in board.Cells
      modifies this, board.Cells
      ensures Valid()
      ensures var o := Step(old(State()), old(board.Occupancy()), PickedPoint(cell), Indices(generated));
        State() == o.turn && board.Occupancy() == o.occ
    {
      var picked := PickedPoint(cell);
      if picked.Some? {
        if !hasQiSelected {
          Select(picked.value, generated);
        } else {
          Respond(picked.value);
        }
      }
    }

    /** A click at `index` with nothing selected: select it if it holds a piece of the current player. */
    method Select(index: int, generated: seq<Point>)
      requires Valid() && !hasQiSelected && 0 <= index < 90
      requires forall k :: 0 <= k < |generated| ==> generated[k] in board.Cells
      modifies this
      ensures Valid()
      ensures var o := Step(old(State()), old(board.Occupancy()), Some(index), Indices(generated));
        State() == o.turn && board.Occupancy() == o.occ
    {
      var pointUnderMouse := board.At(index);
      var q := pointUnderMouse.GetQiAsByte();
      if Qi.Colour(q) == currentPlayer {
        legalMoves := generated;
        hasQiSelected := true;
      }
    }

    /** A click at `index` with a piece selected: move there if it is legal, then clear the selection. */
    method Respond(index: int)
      requires Valid() && hasQiSelected && 0 <= index < 90
      modifies this, board.Cells
      ensures Valid()
      ensures var o := Step(old(State()), old(board.Occupancy()), Some(index), []);
        State() == o.turn && board.Occupancy() == o.occ
    {
      var pointUnderMouse := board.At(index);
      IndicesIdentify(legalMoves, pointUnderMouse);
      if pointUnderMouse in legalMoves && pointUnderMouse != legalMoves[0] {
        board.RegisterMove(legalMoves[0], pointUnderMouse);
        currentPlayer := EndTurn(currentPlayer);
      }
      hasQiSelected := false;
      legalMoves := [];
    }
  }
}
