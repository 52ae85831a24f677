/** One intersection of the board: a fixed position and index, and a mutable occupant. */
module Points {
  import Qi

  class Point {
    /** Grid coordinates (file, rank); the display scale factor is not modelled. */
    const Position: (int, int)
    /** The occupant byte; `Qi.None` when the point is empty. */
    var qi: bv8
    /** The board index of this point. */
    const Index: int

    constructor (position: (int, int), qi: bv8, index: int)
      ensures Position == position && this.qi == qi && Index == index
    {
      Position := position;
      this.qi := qi;
      Index := index;
    }

    /** The occupant, colour and type together; reading it changes nothing. */
    method GetQiAsByte() returns (q: bv8)
      ensures q == qi
    {
      q := qi;
    }

    /**
     * Hands the occupant to `destination` and empties this point. Only the occupant
     * fields can change. When `destination` is this point the piece is lost.
     */
    method MoveOutbound(destination: Point)
      modifies this`qi, destination`qi
      ensures destination != this ==> destination.qi == old(qi) && qi == Qi.None
      ensures destination == this ==> qi == Qi.None
    {
      destination.MoveInbound(qi);
      qi := Qi.None;
    }

    /** Places `inbound` on this point, replacing whatever was there. */
    method MoveInbound(inbound: bv8)
      modifies this`qi
      ensures qi == inbound
    {
      qi := inbound;
    }
  }
}
