/** Where a worm goes, as the rules of the game put it. */
module Rules {
  import opened Messages
  import opened Grammar
  import opened Game

  /** Turning right adds to the direction, turning left takes away, in degrees. */
  function Heading(direction: nat, turn: TurnDirection, speed: nat): nat {
    match turn
    case Right => (direction + speed) % 360
    case Left => (direction - speed) % 360
    case Straight => direction
  }

  /** The point reached by one step in the new direction. */
  function Goal(c: Config, p: Player): (real, real) {
    var step := c.motion(p.x, p.y, Heading(p.movementDirection, p.turnDirection, c.turningSpeed));
    (p.x + step.0, p.y + step.1)
  }

  /** The pixel in which a point lies. */
  function PixelAt(to: (real, real)): Coordinates
    requires to.0 >= 0.0 && to.1 >= 0.0
  {
    (to.0.Floor as nat, to.1.Floor as nat)
  }

  predicate Outside(b: Board, to: (real, real)) {
    to.0 < 0.0 || to.1 < 0.0 || to.0.Floor >= b.maxx || to.1.Floor >= b.maxy
  }

  /** Off the board, or on a pixel that has been eaten and is not the worm's own. */
  predicate Deadly(b: Board, eaten: set<Coordinates>, from: Coordinates, to: (real, real)) {
    Outside(b, to) || (PixelAt(to) in eaten && PixelAt(to) != from)
  }

  lemma MovedToGoal(c: Config, p: Player)
    ensures Moved(c, p) == p.(x := Goal(c, p).0, y := Goal(c, p).1,
                              movementDirection := Heading(p.movementDirection, p.turnDirection, c.turningSpeed))
  {
    var d: int, s: int := p.movementDirection, c.turningSpeed;
    assert (d + 360 - s) % 360 == (d - s) % 360;
  }
}
