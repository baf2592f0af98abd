/** The planner's eight moves and the table of "outer" directions used when speculating
    ahead along the direction of the last move. */
module Directions {
  import opened Wrappers

  const NumDirs := 8

  /** Move offsets, indexed by direction: direction d moves by (DX[d], DY[d]). */
  const DX: seq<int> := [-1, -1, -1, 0, 0, 1, 1, 1]
  const DY: seq<int> := [-1, 0, 1, -1, 1, -1, 0, 1]

  /** Every direction is a unit step in each axis and actually moves. */
  lemma OffsetIsUnitStep(d: int)
    requires 0 <= d < NumDirs
    ensures -1 <= DX[d] <= 1 && -1 <= DY[d] <= 1
    ensures DX[d] != 0 || DY[d] != 0
  {
  }

  /** Direction e leads outward from a move in direction d: it keeps d's nonzero step along
      x, or d's nonzero step along y. */
  predicate Outward(d: int, e: int)
    requires 0 <= d < NumDirs && 0 <= e < NumDirs
  {
    (DX[d] != 0 && DX[e] == DX[d]) || (DY[d] != 0 && DY[e] == DY[d])
  }

  /** getOuterDirs: a fixed table for the eight directions; any other input panics (None). */
  function OuterDirs(inDir: int): (r: Option<seq<int>>)
    ensures r.Some? <==> 0 <= inDir < NumDirs
    ensures r.Some? ==> forall i :: 0 <= i < |r.value| ==> 0 <= r.value[i] < NumDirs
  {
    match inDir
    case 0 => Some([0, 1, 2, 3, 5])
    case 1 => Some([0, 1, 2])
    case 2 => Some([0, 1, 2, 4, 7])
    case 3 => Some([0, 3, 5])
    case 4 => Some([2, 4, 7])
    case 5 => Some([0, 3, 5, 6, 7])
    case 6 => Some([5, 6, 7])
    case 7 => Some([2, 4, 5, 6, 7])
    case _ => None
  }

  predicate StrictlyAscending(s: seq<int>)
  {
    forall i, j :: 0 <= i < j < |s| ==> s[i] < s[j]
  }

  /** The table lists each direction's outer directions in ascending order, includes the
      direction itself, and has five entries for the diagonals and three for the axis moves. */
  lemma OuterDirsShape(d: int)
    requires 0 <= d < NumDirs
    ensures OuterDirs(d).Some?
    ensures StrictlyAscending(OuterDirs(d).value)
    ensures d in OuterDirs(d).value
    ensures |OuterDirs(d).value| == if d in {0, 2, 5, 7} then 5 else 3
  {
  }

  /** The table is exactly the set of outward directions. */
  lemma OuterDirsAreOutward(d: int)
    requires 0 <= d < NumDirs
    ensures forall e :: e in OuterDirs(d).value <==> 0 <= e < NumDirs && Outward(d, e)
  {
  }
}
