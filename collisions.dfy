/** The six site classifications of the lattice and the engine's lookup from
    a classification index to the collision object that handles it. */
module Collisions {

  datatype Option<T> = None | Some(value: T)

  /** Number of site classifications (COLLISION_TYPES). */
  const COLLISION_TYPES: nat := 6

  /** The six collision objects the engine owns, one per site classification:
      mid-fluid, wall, inlet, outlet, inlet-wall and outlet-wall. */
  datatype CollisionType = MidFluid | Wall | Inlet | Outlet | InletWall | OutletWall

  /** The collision object for classification index `i`; None stands for the
      NULL pointer returned for every index outside 0..5. */
  function GetCollision(i: int): (r: Option<CollisionType>)
    ensures r.Some? <==> 0 <= i < COLLISION_TYPES
  {
    match i
    case 0 => Some(MidFluid)
    case 1 => Some(Wall)
    case 2 => Some(Inlet)
    case 3 => Some(Outlet)
    case 4 => Some(InletWall)
    case 5 => Some(OutletWall)
    case _ => None
  }

  /** The index under which GetCollision hands out `c`. */
  function CollisionIndex(c: CollisionType): (i: nat)
    ensures i < COLLISION_TYPES && GetCollision(i) == Some(c)
  {
    match c
    case MidFluid => 0
    case Wall => 1
    case Inlet => 2
    case Outlet => 3
    case InletWall => 4
    case OutletWall => 5
  }

  /** The object handed out for a valid index (the loops never see NULL). */
  function CollisionAt(t: nat): (c: CollisionType)
    requires t < COLLISION_TYPES
    ensures CollisionIndex(c) == t
  {
    GetCollision(t).value
  }

  /** The six objects are pairwise distinct: two valid indices that yield the
      same object are the same index. */
  lemma GetCollisionInjective(i: int, j: int)
    requires GetCollision(i).Some? && GetCollision(i) == GetCollision(j)
    ensures i == j
  {
  }

  /** Every one of the six objects is reached by exactly one index, and the
      index lookup and CollisionIndex are inverse to each other. */
  lemma GetCollisionBijective(c: CollisionType, i: int)
    ensures GetCollision(i) == Some(c) <==> i == CollisionIndex(c)
  {
    if GetCollision(i) == Some(c) {
      GetCollisionInjective(i, CollisionIndex(c));
    }
  }
}
