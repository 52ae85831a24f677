/**
 * Ray traversal over the board: from an origin, collect every in-range empty
 * point along origin, origin + offset, origin + 2 * offset, ...
 */
module MoveHandler {
  import Qi
  import opened Points
  import opened Boards

  const Straight: seq<int> := [1, 9, -1, -9]
  const Diagonal: seq<int> := [10, 8, -10, -8]
  const Ma: seq<int> := [19, 17, -19, -17]
  const Jerng: seq<int> := [20, 16, -20, -16]

  predicate NonZero(offsets: seq<int>) {
    forall k :: 0 <= k < |offsets| ==> offsets[k] != 0
  }

  /** Every offset table steps somewhere, so Traverse terminates for each of them. */
  lemma TablesNonZero()
    ensures NonZero(Straight) && NonZero(Diagonal) && NonZero(Ma) && NonZero(Jerng)
  {
  }

  /** Distance to the edge of the index range in the direction of travel. */
  function RayMeasure(origin: int, offset: int): nat {
    if 0 <= origin < 90 then (if offset > 0 then 90 - origin else origin + 1) else 0
  }

  /**
   * The indices Traverse pushes for one offset: the maximal run of in-range,
   * empty points origin, origin + offset, origin + 2 * offset, ...
   */
  function Ray(occ: seq<bv8>, origin: int, offset: int): (r: seq<int>)
    requires |occ| == 90 && offset != 0
    ensures forall k :: 0 <= k < |r| ==> r[k] == origin + k * offset
    ensures forall k :: 0 <= k < |r| ==> 0 <= r[k] < 90 && occ[r[k]] == Qi.None
    ensures var next := origin + |r| * offset;
      !(0 <= next < 90 && occ[next] == Qi.None)
    decreases RayMeasure(origin, offset)
  {
    if origin > 89 || origin < 0 then []
    else if occ[origin] != Qi.None then []
    else
      var rest := Ray(occ, origin + offset, offset);
      StepScaled(origin, offset, |rest|);
      [origin] + rest
  }

  /** Shifting the start of a ray by one step. */
  lemma StepScaled(origin: int, offset: int, n: nat)
    ensures forall k :: 0 < k <= n ==> origin + offset + (k - 1) * offset == origin + k * offset
    ensures origin + offset + n * offset == origin + (n + 1) * offset
  {
  }

  /** Nothing is pushed from an origin off the board or on an occupied point. */
  lemma RayBlockedAtOrigin(occ: seq<bv8>, origin: int, offset: int)
    requires |occ| == 90 && offset != 0
    ensures Ray(occ, origin, offset) == [] <==> !(0 <= origin < 90 && occ[origin] == Qi.None)
  {
  }

  /** The rays of the first `n` offsets, concatenated in table order. */
  function Rays(occ: seq<bv8>, origin: int, offsets: seq<int>, n: nat): (r: seq<int>)
    requires |occ| == 90 && NonZero(offsets) && n <= |offsets|
    ensures forall k :: 0 <= k < |r| ==> 0 <= r[k] < 90 && occ[r[k]] == Qi.None
  {
    if n == 0 then [] else Rays(occ, origin, offsets, n - 1) + Ray(occ, origin, offsets[n - 1])
  }

  /** The rays of fewer offsets are a prefix of the rays of more. */
  lemma {:induction false} RaysPrefix(occ: seq<bv8>, origin: int, offsets: seq<int>, m: nat, n: nat)
    requires |occ| == 90 && NonZero(offsets) && m <= n <= |offsets|
    ensures Rays(occ, origin, offsets, m) <= Rays(occ, origin, offsets, n)
    decreases n
  {
    if m < n {
      RaysPrefix(occ, origin, offsets, m, n - 1);
    }
  }

  /** How many offsets TraverseInitialise walks: all of them, or all but the last. */
  function Processed(offsets: seq<int>, ignoreLast: bool): (n: nat)
    ensures n <= |offsets|
    ensures ignoreLast && offsets != [] ==> n == |offsets| - 1
    ensures !ignoreLast || offsets == [] ==> n == |offsets|
  {
    if ignoreLast && offsets != [] then |offsets| - 1 else |offsets|
  }

  /** Appends the points of Ray(origin, offset) to `legal`; the board is only read. */
  method Traverse(b: Board, origin: int, offset: int, legal: seq<Point>) returns (extended: seq<Point>)
    requires b.Valid() && offset != 0
    ensures extended == legal + b.PointsAt(Ray(b.Occupancy(), origin, offset))
    decreases RayMeasure(origin, offset)
  {
    if origin > 89 || origin < 0 {
      return legal;
    }
    var q := b.At(origin).GetQiAsByte();
    if q != Qi.None {
      return legal;
    }
    extended := legal + [b.At(origin)];
    extended := Traverse(b, origin + offset, offset, extended);
  }

  /** One iteration of TraverseInitialise's loop: Traverse along offset `i`, appending its ray. */
  method TraverseStep(b: Board, ghost occ: seq<bv8>, origin: int, offsets: seq<int>, i: nat, legal: seq<Point>) returns (extended: seq<Point>)
    requires b.Valid() && NonZero(offsets) && i < |offsets| && occ == b.Occupancy()
    requires legal == b.PointsAt(Rays(occ, origin, offsets, i))
    ensures extended == b.PointsAt(Rays(occ, origin, offsets, i + 1))
  {
    extended := Traverse(b, origin, offsets[i], legal);
    b.PointsAtAppend(Rays(occ, origin, offsets, i), Ray(occ, origin, offsets[i]));
  }

  /** Runs Traverse from `origin` for each offset in turn, optionally skipping the last one. */
  method TraverseInitialise(b: Board, origin: int, offsets: seq<int>, ignoreLast: bool := false) returns (legal: seq<Point>)
    requires b.Valid() && NonZero(offsets)
    ensures legal == b.PointsAt(Rays(b.Occupancy(), origin, offsets, Processed(offsets, ignoreLast)))
  {
    legal := [];
    var range := |offsets|;
    if ignoreLast {
      range := range - 1;
    }
    ghost var occ := b.Occupancy();
    var i := 0;
    while i < range
      invariant 0 <= i && (i <= range || i == 0)
      invariant legal == b.PointsAt(Rays(occ, origin, offsets, i))
    {
      legal := TraverseStep(b, occ, origin, offsets, i, legal);
      i := i + 1;
    }
    assert i == Processed(offsets, ignoreLast);
    assert b.Occupancy() == occ;
  }
}
