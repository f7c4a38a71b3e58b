/**
 * day11.py: the hull-painting robot. A turn rotates the robot's heading by a
 * quarter and then moves it one panel along the new heading.
 */
module Day11 {

  datatype Vector = Vector(x: int, y: int)

  const Up := Vector(0, 1)
  const Right := Vector(1, 0)
  const Down := Vector(0, -1)
  const Left := Vector(-1, 0)

  /** The four headings the robot is meant to have. */
  predicate IsHeading(d: Vector)
  {
    d == Up || d == Right || d == Down || d == Left
  }

  /** The heading after `turn_left`: any heading the chain does not match becomes up. */
  function LeftOf(d: Vector): (r: Vector)
    ensures IsHeading(r)
  {
    if d == Up then Left
    else if d == Left then Down
    else if d == Down then Right
    else Up
  }

  /** The heading after `turn_right`: any heading the chain does not match becomes up. */
  function RightOf(d: Vector): (r: Vector)
    ensures IsHeading(r)
  {
    if d == Up then Right
    else if d == Right then Down
    else if d == Down then Left
    else Up
  }

  function Plus(a: Vector, b: Vector): Vector
  {
    Vector(a.x + b.x, a.y + b.y)
  }

  /** Left turns go up, left, down, right and back: four of them restore a heading. */
  lemma {:induction false} LeftCycle(d: Vector)
    requires IsHeading(d)
    ensures LeftOf(d) != d && LeftOf(LeftOf(d)) != d && LeftOf(LeftOf(LeftOf(d))) != d
    ensures LeftOf(LeftOf(LeftOf(LeftOf(d)))) == d
  {
  }

  /** Right turns go up, right, down, left and back: four of them restore a heading. */
  lemma {:induction false} RightCycle(d: Vector)
    requires IsHeading(d)
    ensures RightOf(d) != d && RightOf(RightOf(d)) != d && RightOf(RightOf(RightOf(d))) != d
    ensures RightOf(RightOf(RightOf(RightOf(d)))) == d
  {
  }

  /** For the four headings, a left and a right turn undo each other. */
  lemma {:induction false} TurnsUndo(d: Vector)
    requires IsHeading(d)
    ensures RightOf(LeftOf(d)) == d && LeftOf(RightOf(d)) == d
  {
  }

  /** Four left turns from one of the four headings walk around a square back to the start. */
  lemma {:induction false} LeftSquare(pos: Vector, d: Vector)
    requires IsHeading(d)
    ensures var d1 := LeftOf(d); var d2 := LeftOf(d1); var d3 := LeftOf(d2); var d4 := LeftOf(d3);
      Plus(Plus(Plus(Plus(pos, d1), d2), d3), d4) == pos
  {
  }

  /** A heading outside the four falls through both chains to up. */
  lemma {:induction false} OtherHeading(d: Vector)
    requires !IsHeading(d)
    ensures LeftOf(d) == Up && RightOf(d) == Up
  {
  }

  /** `Robot`: its position and heading, up from the origin at first. */
  class Robot {
    var pos: Vector
    var dir: Vector

    constructor ()
      ensures pos == Vector(0, 0) && dir == Up
    {
      pos := Vector(0, 0);
      dir := Up;
    }

    /** `turn_left`: a quarter turn, then one panel along the new heading. */
    method TurnLeft()
      modifies this
      ensures dir == LeftOf(old(dir))
      ensures pos == Plus(old(pos), dir)
    {
      if dir == Vector(0, 1) {
        dir := Vector(-1, 0);
      } else if dir == Vector(-1, 0) {
        dir := Vector(0, -1);
      } else if dir == Vector(0, -1) {
        dir := Vector(1, 0);
      } else {
        dir := Vector(0, 1);
      }
      pos := Vector(pos.x + dir.x, pos.y + dir.y);
    }

    /** `turn_right`: a quarter turn, then one panel along the new heading. */
    method TurnRight()
      modifies this
      ensures dir == RightOf(old(dir))
      ensures pos == Plus(old(pos), dir)
    {
      if dir == Vector(0, 1) {
        dir := Vector(1, 0);
      } else if dir == Vector(1, 0) {
        dir := Vector(0, -1);
      } else if dir == Vector(0, -1) {
        dir := Vector(-1, 0);
      } else {
        dir := Vector(0, 1);
      }
      pos := Vector(pos.x + dir.x, pos.y + dir.y);
    }
  }
}
