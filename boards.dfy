/**
 * The 90-point board, indexed rank * 9 + file (files 0..8, ranks 0..9), its
 * starting layout and its single mutator, RegisterMove.
 */
module Boards {
  import Qi
  import opened Points

  /** The board index of (file, rank). */
  function Idx(file: int, rank: int): int {
    rank * 9 + file
  }

  lemma IdxInverse(file: int, rank: int)
    requires 0 <= file < 9 && 0 <= rank < 10
    ensures 0 <= Idx(file, rank) < 90
    ensures Idx(file, rank) % 9 == file && Idx(file, rank) / 9 == rank
  {
  }

  /**
   * The library helper `Common.MirrorNumber` is not part of this model; it is
   * taken to reflect x within [lo, hi].
   */
  function MirrorNumber(x: int, lo: int, hi: int): int {
    lo + hi - x
  }

  function Abs(x: int): nat {
    if x < 0 then -x else x
  }

  /**
   * The piece on (file, rank) at the start of a game: Red on ranks 0..4, Green
   * on ranks 5..9, ranks above 3 folded onto the Red half by |rank - 9|.
   * Both arguments are bytes.
   */
  function DetermineStartingQis(file: int, rank: int): (q: bv8)
    requires 0 <= file < 256 && 0 <= rank < 256
    ensures q != Qi.None ==> Qi.Colour(q) == (if rank < 5 then Qi.R else Qi.G)
    ensures Qi.Type(q) == Qi.None <==> q == Qi.None
  {
    var colour := if rank < 5 then Qi.R else Qi.G;
    var folded := if rank > 3 then Abs(rank - 9) else rank;
    if folded == 0 then
      if file == 0 || file == 8 then colour | Qi.Goo
      else if file == 1 || file == 7 then colour | Qi.Ma
      else if file == 2 || file == 6 then colour | Qi.Jerng
      else if file == 3 || file == 5 then colour | Qi.T
      else colour | Qi.Goong
    else if folded == 2 then
      if file == 1 || file == 7 then colour | Qi.Paow else Qi.None
    else if folded == 3 then
      if file == 0 || file == 2 || file == 4 || file == 6 || file == 8 then colour | Qi.Xut else Qi.None
    else
      Qi.None
  }

  /** The occupants of all 90 points at the start of a game. */
  function StartingLayout(): (layout: seq<bv8>)
    ensures |layout| == 90
    ensures forall f, r {:trigger Idx(f, r)} :: 0 <= f < 9 && 0 <= r < 10 ==> layout[Idx(f, r)] == DetermineStartingQis(f, r)
  {
    seq(90, i requires 0 <= i < 90 => DetermineStartingQis(i % 9, i / 9))
  }

  /** Every starting piece is a recognised type, Red on ranks 0..4 and Green above. */
  lemma StartingColours(file: int, rank: int)
    requires 0 <= file < 9 && 0 <= rank < 10
    ensures var q := DetermineStartingQis(file, rank);
      q != Qi.None ==> Qi.IsTypeConstant(Qi.Type(q)) && Qi.Colour(q) == (if rank < 5 then Qi.R else Qi.G)
  {
  }

  /** The back ranks, 0 and 9, hold Goo, Ma, Jerng, T, Goong, T, Jerng, Ma, Goo. */
  lemma BackRanks(file: int, rank: int)
    requires 0 <= file < 9 && (rank == 0 || rank == 9)
    ensures var t := Qi.Type(DetermineStartingQis(file, rank));
      && ((file == 0 || file == 8) ==> t == Qi.Goo)
      && ((file == 1 || file == 7) ==> t == Qi.Ma)
      && ((file == 2 || file == 6) ==> t == Qi.Jerng)
      && ((file == 3 || file == 5) ==> t == Qi.T)
      && (file == 4 ==> t == Qi.Goong)
  {
  }

  /** Where the Paow, the Xut and the empty ranks are. */
  lemma MiddleRanks(file: int, rank: int)
    requires 0 <= file < 9 && 0 <= rank < 10
    ensures var q := DetermineStartingQis(file, rank);
      && (Qi.Type(q) == Qi.Paow <==> (rank == 2 || rank == 7) && (file == 1 || file == 7))
      && (Qi.Type(q) == Qi.Xut <==> (rank == 3 || rank == 6) && file % 2 == 0)
      && ((rank == 1 || rank == 4 || rank == 5 || rank == 8) ==> q == Qi.None)
  {
  }

  /** The point reflected through the centre holds the same type in the other colour. */
  lemma MirrorSymmetry(file: int, rank: int)
    requires 0 <= file < 9 && 0 <= rank < 10
    ensures var q, m := DetermineStartingQis(file, rank), DetermineStartingQis(8 - file, 9 - rank);
      && Qi.Type(m) == Qi.Type(q)
      && (m == Qi.None <==> q == Qi.None)
      && (q != Qi.None ==> Qi.Colour(m) == (if Qi.Colour(q) == Qi.R then Qi.G else Qi.R))
  {
  }

  /** The number of occupied points. */
  function PieceCount(occ: seq<bv8>): nat {
    if occ == [] then 0 else (if occ[0] != Qi.None then 1 else 0) + PieceCount(occ[1..])
  }

  /** Replacing one occupant changes the count by the difference in occupancy. */
  lemma {:induction false} PieceCountUpdate(occ: seq<bv8>, i: int, v: bv8)
    requires 0 <= i < |occ|
    ensures PieceCount(occ[i := v]) + (if occ[i] != Qi.None then 1 else 0)
         == PieceCount(occ) + (if v != Qi.None then 1 else 0)
  {
    if i > 0 {
      assert occ[i := v][1..] == occ[1..][i - 1 := v];
      PieceCountUpdate(occ[1..], i - 1, v);
    } else {
      assert occ[i := v][1..] == occ[1..];
    }
  }

  /**
   * The occupancy after RegisterMove on the points at `from` and `to`: `to`
   * receives the mover, then `from` is emptied.
   */
  function Moved(occ: seq<bv8>, from: int, to: int): (moved: seq<bv8>)
    requires 0 <= from < |occ| && 0 <= to < |occ|
    ensures |moved| == |occ|
    ensures moved[from] == Qi.None
    ensures from != to ==> moved[to] == occ[from]
    ensures forall i :: 0 <= i < |occ| && i != from && i != to ==> moved[i] == occ[i]
  {
    occ[to := occ[from]][from := Qi.None]
  }

  /** Moving a piece onto an empty point and back restores the board. */
  lemma MoveUndo(occ: seq<bv8>, from: int, to: int)
    requires 0 <= from < |occ| && 0 <= to < |occ|
    requires from != to && occ[to] == Qi.None
    ensures Moved(Moved(occ, from, to), to, from) == occ
  {
  }

  /** Moving a point onto itself loses its piece. */
  lemma SelfMoveLosesPiece(occ: seq<bv8>, i: int)
    requires 0 <= i < |occ|
    ensures Moved(occ, i, i) == occ[i := Qi.None]
  {
  }

  /** A move onto an empty point keeps every piece; a capture removes exactly one. */
  lemma MovedPieceCount(occ: seq<bv8>, from: int, to: int)
    requires 0 <= from < |occ| && 0 <= to < |occ|
    requires from != to && occ[from] != Qi.None
    ensures PieceCount(Moved(occ, from, to)) == PieceCount(occ) - (if occ[to] != Qi.None then 1 else 0)
  {
    PieceCountUpdate(occ, to, occ[from]);
    PieceCountUpdate(occ[to := occ[from]], from, Qi.None);
  }

  /** A move never adds a piece, whatever its endpoints. */
  lemma MovedNeverAdds(occ: seq<bv8>, from: int, to: int)
    requires 0 <= from < |occ| && 0 <= to < |occ|
    ensures PieceCount(Moved(occ, from, to)) <= PieceCount(occ)
  {
    PieceCountUpdate(occ, to, occ[from]);
    PieceCountUpdate(occ[to := occ[from]], from, Qi.None);
  }

  class Board {
    /** The 90 points; a static array in the source. */
    const board: array<Point?>

    /** The points the board owns. */
    ghost var Cells: set<Point>

    /** Each slot holds its own point, whose index and position match the slot. */
    ghost predicate Valid()
      reads this, board, Cells
    {
      && board.Length == 90
      && (forall i :: 0 <= i < 90 ==> board[i] in Cells && board[i].Index == i && board[i].Position == (i % 9, i / 9))
      && (forall p :: p in Cells ==> 0 <= p.Index < 90 && board[p.Index] == p)
    }

    /** The occupant of every point, in index order. */
    ghost function Occupancy(): (occ: seq<bv8>)
      requires Valid()
      reads this, board, Cells
      ensures |occ| == 90
      ensures forall i :: 0 <= i < 90 ==> occ[i] == board[i].qi
    {
      seq(90, i requires 0 <= i < 90 && Valid() reads this, board, Cells => board[i].qi)
    }

    /** The point at `index`; the source's array access fails outside 0..89. */
    function At(index: int): (p: Point)
      requires Valid()
      requires 0 <= index < 90
      reads this, board, Cells
      ensures p in Cells && p.Index == index && p.Position == (index % 9, index / 9)
    {
      board[index]
    }

    /** The points at a sequence of valid indices, in order. */
    ghost function PointsAt(idx: seq<int>): (ps: seq<Point>)
      requires Valid()
      requires forall k :: 0 <= k < |idx| ==> 0 <= idx[k] < 90
      reads this, board, Cells
      ensures |ps| == |idx|
    {
      if idx == [] then [] else [At(idx[0])] + PointsAt(idx[1..])
    }

    lemma {:induction false} PointsAtIndex(idx: seq<int>, k: int)
      requires Valid()
      requires forall j :: 0 <= j < |idx| ==> 0 <= idx[j] < 90
      requires 0 <= k < |idx|
      ensures PointsAt(idx)[k] == board[idx[k]]
    {
      if k > 0 {
        PointsAtIndex(idx[1..], k - 1);
      }
    }

    lemma PointsAtAppend(a: seq<int>, b: seq<int>)
      requires Valid()
      requires forall k :: 0 <= k < |a| ==> 0 <= a[k] < 90
      requires forall k :: 0 <= k < |b| ==> 0 <= b[k] < 90
      ensures PointsAt(a + b) == PointsAt(a) + PointsAt(b)
    {
      forall k | 0 <= k < |a| + |b|
        ensures PointsAt(a + b)[k] == (PointsAt(a) + PointsAt(b))[k]
      {
        PointsAtIndex(a + b, k);
        if k < |a| {
          PointsAtIndex(a, k);
        } else {
          PointsAtIndex(b, k - |a|);
        }
      }
    }

    /** `p` is the point MakeBoard builds for (file, rank). */
    static ghost predicate PlacedAt(p: Point?, file: int, rank: int)
      requires 0 <= file < 9 && 0 <= rank < 10
      reads p
    {
      && p != null
      && p.Index == Idx(file, rank) && p.Position == (file, rank)
      && p.qi == DetermineStartingQis(file, rank)
    }

    /** Every (file, rank) placed means every index holds the point of its own coordinates. */
    static lemma AllPlaced(a: array<Point?>)
      requires a.Length == 90
      requires forall f, r :: 0 <= f < 9 && 0 <= r < 10 ==> PlacedAt(a[Idx(f, r)], f, r)
      ensures forall i :: 0 <= i < 90 ==> PlacedAt(a[i], i % 9, i / 9)
    {
      forall i | 0 <= i < 90
        ensures PlacedAt(a[i], i % 9, i / 9)
      {
        IdxInverse(i % 9, i / 9);
        assert PlacedAt(a[Idx(i % 9, i / 9)], i % 9, i / 9);
      }
    }

    /** A valid board whose points carry the starting occupants is in the starting layout. */
    lemma StartingOccupancy()
      requires Valid()
      requires forall i :: 0 <= i < 90 ==> board[i].qi == DetermineStartingQis(i % 9, i / 9)
      ensures Occupancy() == StartingLayout()
    {
    }

    /** Sets up a fresh board in the starting layout. */
    constructor ()
      ensures Valid() && fresh(board)
      ensures forall p :: p in Cells ==> fresh(p)
      ensures Occupancy() == StartingLayout()
    {
      board := new Point?[90](_ => null);
      new;
      MakeBoard();
    }

    /**
     * Fills every slot with a new point: ranks 0..4 in the loop, ranks 5..9 as
     * their mirror images.
     */
    method MakeBoard()
      requires board.Length == 90
      requires forall i :: 0 <= i < 90 ==> board[i] == null
      modifies this, board
      ensures Valid()
      ensures forall p :: p in Cells ==> fresh(p)
      ensures Occupancy() == StartingLayout()
    {
      for rank := 0 to 5
        invariant forall i :: 0 <= i < 90 ==> board[i] == null || fresh(board[i])
        invariant forall f, r :: 0 <= f < 9 && 0 <= r < rank ==>
          PlacedAt(board[Idx(f, r)], f, r)
        invariant forall f, r :: 0 <= f < 9 && 9 - rank < r < 10 ==>
          PlacedAt(board[Idx(f, r)], f, r)
      {
        ghost var mirrored := 9 - rank;
        for file := 0 to 9
          invariant forall i :: 0 <= i < 90 ==> board[i] == null || fresh(board[i])
          invariant forall f, r :: 0 <= f < 9 && 0 <= r < rank ==>
            PlacedAt(board[Idx(f, r)], f, r)
          invariant forall f, r :: 0 <= f < 9 && 9 - rank < r < 10 ==>
            PlacedAt(board[Idx(f, r)], f, r)
          invariant forall f :: 0 <= f < file ==>
            PlacedAt(board[Idx(f, rank)], f, rank)
          invariant forall f :: 8 - file < f < 9 ==>
            PlacedAt(board[Idx(f, mirrored)], f, mirrored)
        {
          PlaceWithMirror(file, rank);
        }
      }
      AllPlaced(board);
      Cells := set i | 0 <= i < 90 :: board[i] as Point;
      assert forall i :: 0 <= i < 90 ==> board[i] in Cells;
      StartingOccupancy();
    }

    /** One step of MakeBoard: a new point at (file, rank) and one at its mirror image. */
    method PlaceWithMirror(file: int, rank: int)
      requires board.Length == 90 && 0 <= file < 9 && 0 <= rank < 5
      modifies board
      ensures PlacedAt(board[Idx(file, rank)], file, rank) && fresh(board[Idx(file, rank)])
      ensures PlacedAt(board[Idx(8 - file, 9 - rank)], 8 - file, 9 - rank) && fresh(board[Idx(8 - file, 9 - rank)])
      ensures forall i :: 0 <= i < 90 && i != Idx(file, rank) && i != Idx(8 - file, 9 - rank) ==> board[i] == old(board[i])
    {
      var position := Idx(file, rank);
      board[position] := new Point((file, rank), DetermineStartingQis(file, rank), position);

      var mirroredRank := MirrorNumber(rank, 0, 9);
      var mirroredFile := MirrorNumber(file, 0, 8);
      var mirroredPosition := Idx(mirroredFile, mirroredRank);
      board[mirroredPosition] := new Point((mirroredFile, mirroredRank),
        DetermineStartingQis(mirroredFile, mirroredRank), mirroredPosition);
    }

    /** Moves the occupant of `from` onto `to` and empties `from`. */
    method RegisterMove(from: Point, to: Point)
      requires Valid()
      modifies from`qi, to`qi
      ensures Valid()
      ensures from.qi == Qi.None
      ensures from != to ==> to.qi == old(from.qi)
      ensures forall i :: 0 <= i < 90 && board[i] != from && board[i] != to ==> board[i].qi == old(board[i].qi)
      ensures from in Cells && to in Cells ==> Occupancy() == Moved(old(Occupancy()), from.Index, to.Index)
    {
      from.MoveOutbound(to);
    }

    /** Reads the occupant at `index` and reports whether the point is occupied. */
    method QiIsNotNone(index: int) returns (notNone: bool, qi: bv8)
      requires Valid()
      requires 0 <= index < 90
      ensures qi == Occupancy()[index]
      ensures notNone <==> qi != Qi.None
    {
      var qiBoard := board[index].GetQiAsByte();
      qi := qiBoard;
      notNone := qiBoard != Qi.None;
    }
  }
}
