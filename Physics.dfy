/** The bird's vertical motion: one semi-implicit Euler step per tick, with
    the step thrown away when it would leave the field. */
module Physics {

  /** Added to the velocity every tick (pixels per tick per tick, downwards). */
  const Gravity: real := 0.5
  /** The velocity a jump sets (negative is upwards). */
  const JumpForce: real := -10.0
  /** Height of the play field; y grows downwards from 0 at the top. */
  const FieldHeight: real := 500.0
  /** Where the bird starts, and where a restart puts it. */
  const StartPosition: real := 250.0

  /** The bird's position lies within the field's bounds. */
  predicate InField(y: real)
  {
    0.0 <= y <= FieldHeight
  }

  /** The outcome of the position updater: the position kept and whether
      the attempted step left the field (which ends the run). */
  datatype BirdMove = BirdMove(position: real, outOfBounds: bool)

  /** The position updater of one tick, given the position before the tick
      and the velocity the tick read (the one before gravity is added). */
  function MoveBird(prev: real, velocity: real): (m: BirdMove)
    ensures m.outOfBounds <==> !InField(prev + velocity)
    ensures !m.outOfBounds ==> m.position == prev + velocity
    ensures m.outOfBounds ==> m.position == prev
    ensures InField(prev) ==> InField(m.position)
  {
    var newPosition := prev + velocity;
    if newPosition > FieldHeight || newPosition < 0.0 then BirdMove(prev, true)
    else BirdMove(newPosition, false)
  }
}
