/**
 * The list-based cube manager (src/components/CubeManager.jsx): a component
 * that keeps the placed cube positions in a state array and refuses to place
 * a cube on an occupied cell. Rendering is not modelled; `setCubes` and
 * `setHoverPosition` are assignments to the fields below.
 */
module CubeManagement {
  import opened Basics

  /** A cell centre `[x, y, z]`, already snapped to the grid. */
  datatype Position = Position(x: real, y: real, z: real)

  /** `c => !(c.x === pos[0] && c.y === pos[1] && c.z === pos[2])` */
  function Elsewhere(pos: Position): Position -> bool {
    (c: Position) => !(c.x == pos.x && c.y == pos.y && c.z == pos.z)
  }

  /** The cube list after `placeCube(pos)`. */
  function AfterPlace(cubes: seq<Position>, pos: Position): seq<Position> {
    if pos in cubes then cubes else cubes + [pos]
  }

  /** The cube list after `deleteCube(pos)`. */
  function AfterDelete(cubes: seq<Position>, pos: Position): seq<Position> {
    Filter(cubes, Elsewhere(pos))
  }

  /** After a placement the position is occupied, and every earlier cube is still there. */
  lemma PlaceOccupies(cubes: seq<Position>, pos: Position)
    ensures pos in AfterPlace(cubes, pos)
    ensures forall c :: c in AfterPlace(cubes, pos) <==> c in cubes || c == pos
  {
  }

  /** A deletion removes every cube at the position and keeps all others. */
  lemma DeleteRemovesAll(cubes: seq<Position>, pos: Position)
    ensures forall c :: c in AfterDelete(cubes, pos) <==> c in cubes && c != pos
  {
    FilterMembers(cubes, Elsewhere(pos));
  }

  /** Placing and deleting keep a list that has no two cubes at one position free of duplicates. */
  lemma OperationsKeepDistinct(cubes: seq<Position>, pos: Position)
    requires Distinct(cubes)
    ensures Distinct(AfterPlace(cubes, pos))
    ensures Distinct(AfterDelete(cubes, pos))
  {
    if pos !in cubes {
      AppendDistinct(cubes, [pos]);
    }
    FilterDistinct(cubes, Elsewhere(pos));
  }

  /** Placing at a free position and then deleting there gives back the list. */
  lemma PlaceThenDelete(cubes: seq<Position>, pos: Position)
    requires pos !in cubes
    ensures AfterDelete(AfterPlace(cubes, pos), pos) == cubes
  {
    FilterAppend(cubes, [pos], Elsewhere(pos));
    FilterAll(cubes, Elsewhere(pos));
  }

  /** A second placement at the same position changes nothing. */
  lemma PlaceIdempotent(cubes: seq<Position>, pos: Position)
    ensures AfterPlace(AfterPlace(cubes, pos), pos) == AfterPlace(cubes, pos)
  {
  }

  class CubeManager {
    /** The `cubes` state array. */
    var cubes: seq<Position>
    /** The `hoverPosition` state; `None` is `null`. */
    var hoverPosition: Option<Position>

    constructor()
      ensures cubes == [] && hoverPosition == None
    {
      cubes := [];
      hoverPosition := None;
    }

    /** `positionExists(pos)` */
    function PositionExists(pos: Position): (b: bool)
      reads this
      ensures b <==> pos in cubes
    {
      exists c :: c in cubes && c.x == pos.x && c.y == pos.y && c.z == pos.z
    }

    /** `placeCube(pos)`: appends the position unless a cube is already there. */
    method PlaceCube(pos: Position)
      modifies this
      ensures old(PositionExists(pos)) ==> cubes == old(cubes)
      ensures !old(PositionExists(pos)) ==> cubes == old(cubes) + [pos]
      ensures cubes == AfterPlace(old(cubes), pos)
      ensures hoverPosition == old(hoverPosition)
    {
      if PositionExists(pos) {
        return;
      }
      cubes := cubes + [pos];
    }

    /** `deleteCube(pos)`: keeps the cubes at every other position, in order. */
    method DeleteCube(pos: Position)
      modifies this
      ensures cubes == AfterDelete(old(cubes), pos)
      ensures hoverPosition == old(hoverPosition)
    {
      cubes := Filter(cubes, Elsewhere(pos));
    }

    /** The ground plane's `onMove` handler, given the already snapped position. */
    method HoverAt(pos: Position)
      modifies this
      ensures hoverPosition == Some(pos) && cubes == old(cubes)
    {
      hoverPosition := Some(pos);
    }

    /**
     * The ground plane's `onClick` handler: only the primary button with a
     * hover position places a cube, at that position.
     */
    method GroundClick(button: int)
      modifies this
      ensures button != 0 || old(hoverPosition).None? ==> cubes == old(cubes)
      ensures button == 0 && old(hoverPosition).Some? ==> cubes == AfterPlace(old(cubes), old(hoverPosition).value)
      ensures hoverPosition == old(hoverPosition)
    {
      if button != 0 {
        return;
      }
      if hoverPosition.None? {
        return;
      }
      PlaceCube(hoverPosition.value);
    }
  }

}
