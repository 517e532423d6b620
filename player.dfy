/** The bird: a falling body with a jump impulse, its tilt and its hitbox
    (src/player/player.py). */
module Players {
  import opened Geometry

  const GRAVITY: real := 0.5
  const JUMP_STRENGTH: real := -10.0
  /** Radius of the drawn bird; the out-of-bounds test uses it. */
  const SIZE: real := 30.0
  /** Half the side of the square hitbox. */
  const COLLISION_SIZE: real := 12.0
  const MAX_TILT: real := 25.0
  const TILT_GAIN: real := 3.0

  /** The simulated state of a player: position and vertical velocity. The tilt
      is only drawn, and is kept beside it in the Player class. */
  datatype Body = Body(x: real, y: real, velocity: real)

  /** The drawn tilt for a velocity: -3 degrees per unit of velocity, clamped
      to [-25, 25] (rising birds nose up, falling ones nose down). */
  function Tilt(velocity: real): (r: real)
    ensures -MAX_TILT <= r <= MAX_TILT
    ensures -MAX_TILT / TILT_GAIN <= velocity <= MAX_TILT / TILT_GAIN ==> r == -TILT_GAIN * velocity
    ensures velocity < -MAX_TILT / TILT_GAIN ==> r == MAX_TILT
    ensures velocity > MAX_TILT / TILT_GAIN ==> r == -MAX_TILT
  {
    Max(-MAX_TILT, Min(MAX_TILT, -velocity * TILT_GAIN))
  }

  /** One call of update: gravity first, then the new velocity moves the bird. */
  function Tick(b: Body): Body
  {
    var v := b.velocity + GRAVITY;
    Body(b.x, b.y + v, v)
  }

  /** A jump overwrites the velocity with the impulse. */
  function Jumped(b: Body): Body
  {
    b.(velocity := JUMP_STRENGTH)
  }

  /** k calls of update with no jump in between. */
  function Ticks(b: Body, k: nat): Body
  {
    if k == 0 then b else Tick(Ticks(b, k - 1))
  }

  /** The hitbox of get_rect: a square of side 24 centred on the bird. */
  function PlayerRect(b: Body): (r: Rect)
    ensures r.width == r.height == 2.0 * COLLISION_SIZE
    ensures r.left + r.width / 2.0 == b.x && r.top + r.height / 2.0 == b.y
  {
    Rect(b.x - COLLISION_SIZE, b.y - COLLISION_SIZE, COLLISION_SIZE * 2.0, COLLISION_SIZE * 2.0)
  }

  /** A jump sets the velocity to -10 whatever it was and touches nothing else. */
  lemma JumpOverwritesVelocity(b: Body, v: real)
    ensures Jumped(b).velocity == JUMP_STRENGTH
    ensures Jumped(b.(velocity := v)) == Jumped(b)
    ensures Jumped(b).(velocity := b.velocity) == b
  {
  }

  /** A jump followed by an update always leaves velocity -9.5: jumps do not
      accumulate with the previous velocity. */
  lemma JumpThenTick(b: Body)
    ensures Tick(Jumped(b)).velocity == -9.5
    ensures Tick(Jumped(b)).y == b.y - 9.5
    ensures Tilt(Tick(Jumped(b)).velocity) == MAX_TILT
  {
  }

  /** Closed form of k updates without jumping: the velocity grows linearly and
      the height is the discrete sum of the velocities. */
  lemma {:induction false} TicksClosedForm(b: Body, k: nat)
    ensures Ticks(b, k).velocity == b.velocity + GRAVITY * k as real
    ensures Ticks(b, k).y == b.y + k as real * b.velocity + GRAVITY * (k as real * (k as real + 1.0)) / 2.0
  {
    if k > 0 {
      TicksClosedForm(b, k - 1);
      ClosedFormStep(b, k, k as real, (k - 1) as real);
    }
  }

  /** If the bird is in closed form after k - 1 updates, it is after k. */
  lemma ClosedFormStep(b: Body, k: nat, n: real, m: real)
    requires k > 0 && n == k as real && n == m + 1.0
    requires Ticks(b, k - 1).velocity == b.velocity + GRAVITY * m
    requires Ticks(b, k - 1).y == b.y + m * b.velocity + GRAVITY * (m * (m + 1.0)) / 2.0
    ensures Ticks(b, k).velocity == b.velocity + GRAVITY * n
    ensures Ticks(b, k).y == b.y + n * b.velocity + GRAVITY * (n * (n + 1.0)) / 2.0
  {
    var prev := Ticks(b, k - 1);
    assert Ticks(b, k).y == prev.y + prev.velocity + GRAVITY;
    assert n * b.velocity == m * b.velocity + b.velocity;
    assert n * (n + 1.0) == m * (m + 1.0) + 2.0 * n;
  }

  /** Updates never move the bird horizontally. */
  lemma {:induction false} TicksKeepX(b: Body, k: nat)
    ensures Ticks(b, k).x == b.x
  {
    if k > 0 {
      TicksKeepX(b, k - 1);
    }
  }

  /** The bird (src/player/player.py); the sprite and its colour are not modelled. */
  class Player {
    var x: real
    var y: real
    var velocity: real
    var rotation: real

    function State(): Body
      reads this
    {
      Body(x, y, velocity)
    }

    /** A fresh bird at (x, y), at rest and level. */
    constructor (x: real, y: real)
      ensures State() == Body(x, y, 0.0) && rotation == 0.0
    {
      this.x := x;
      this.y := y;
      velocity := 0.0;
      rotation := 0.0;
    }

    method Jump()
      modifies this
      ensures velocity == JUMP_STRENGTH
      ensures x == old(x) && y == old(y) && rotation == old(rotation)
      ensures State() == Jumped(old(State()))
    {
      velocity := JUMP_STRENGTH;
    }

    method Update()
      modifies this
      ensures velocity == old(velocity) + GRAVITY
      ensures y == old(y) + velocity
      ensures rotation == Tilt(velocity)
      ensures x == old(x)
      ensures State() == Tick(old(State()))
    {
      velocity := velocity + GRAVITY;
      y := y + velocity;
      rotation := Tilt(velocity);
    }
  }
}
