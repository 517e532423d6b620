/** A scrolling pipe pair with a gap, its collision geometry and the screen
    constants of the game (src/main/main.py, class Pipe). */
module Pipes {
  import opened Geometry

  const WIDTH: int := 800
  const HEIGHT: int := 600
  const PIPE_WIDTH: int := 70
  const PIPE_GAP: int := 100
  const PIPE_SPEED: int := 3
  /** Collision rectangles are narrower and shorter than the drawn pipes. */
  const HORIZONTAL_PADDING: int := 25
  const VERTICAL_PADDING: int := 20
  /** Range of the random gap centre. */
  const MIN_GAP_Y: int := 150
  const MAX_GAP_Y: int := HEIGHT - 150 - PIPE_GAP

  predicate GapInRange(gapY: int)
  {
    MIN_GAP_Y <= gapY <= MAX_GAP_Y
  }

  /** The simulated state of a pipe pair. */
  datatype PipeState = PipeState(x: int, gapY: int, passed: bool)

  /** get_collision_rects: the padded top and bottom rectangles, in that order. */
  function CollisionRects(x: int, gapY: int): seq<Rect>
  {
    [Rect((x + HORIZONTAL_PADDING) as real, 0.0,
          (PIPE_WIDTH - HORIZONTAL_PADDING * 2) as real,
          (gapY - VERTICAL_PADDING) as real),
     Rect((x + HORIZONTAL_PADDING) as real,
          (gapY + PIPE_GAP + VERTICAL_PADDING) as real,
          (PIPE_WIDTH - HORIZONTAL_PADDING * 2) as real,
          (HEIGHT - (gapY + PIPE_GAP + VERTICAL_PADDING)) as real)]
  }

  /** collides_with: builds the two padded rectangles itself and tests the
      player's hitbox against each. */
  predicate CollidesWith(x: int, gapY: int, player: Rect)
  {
    var top := Rect((x + HORIZONTAL_PADDING) as real, 0.0,
                    (PIPE_WIDTH - HORIZONTAL_PADDING * 2) as real,
                    (gapY - VERTICAL_PADDING) as real);
    var bottom := Rect((x + HORIZONTAL_PADDING) as real,
                       (gapY + PIPE_GAP + VERTICAL_PADDING) as real,
                       (PIPE_WIDTH - HORIZONTAL_PADDING * 2) as real,
                       (HEIGHT - (gapY + PIPE_GAP + VERTICAL_PADDING)) as real);
    Colliderect(player, top) || Colliderect(player, bottom)
  }

  /** is_offscreen: the trailing edge has left the screen on the left. */
  predicate IsOffscreen(x: int)
  {
    x + PIPE_WIDTH < 0
  }

  /** For every gap centre the generator can draw, both collision rectangles
      start at x + 25 and are 20 wide; the top one covers [0, gapY - 20), the
      bottom one [gapY + 120, 600); both have positive height, and the opening
      between them is 140 high. */
  lemma CollisionRectsGeometry(x: int, gapY: int)
    requires GapInRange(gapY)
    ensures var rs := CollisionRects(x, gapY);
      |rs| == 2 &&
      rs[0].left == rs[1].left == (x + 25) as real &&
      rs[0].width == rs[1].width == 20.0 &&
      rs[0].top == 0.0 && rs[0].Bottom() == (gapY - 20) as real &&
      rs[1].top == (gapY + 120) as real && rs[1].Bottom() == HEIGHT as real &&
      rs[0].height > 0.0 && rs[1].height > 0.0 &&
      rs[1].top - rs[0].Bottom() == (PIPE_GAP + 2 * VERTICAL_PADDING) as real
  {
  }

  /** collides_with and get_collision_rects build the same rectangles: a pipe
      collides exactly when one of its collision rectangles meets the hitbox. */
  lemma CollidesWithMatchesCollisionRects(x: int, gapY: int, player: Rect)
    ensures CollidesWith(x, gapY, player) <==>
            exists r :: r in CollisionRects(x, gapY) && Colliderect(player, r)
  {
    var rs := CollisionRects(x, gapY);
    if CollidesWith(x, gapY, player) {
      assert Colliderect(player, rs[0]) || Colliderect(player, rs[1]);
    }
  }

  /** What a collision means for a hitbox of positive size: it overlaps the
      pipe's padded column horizontally and reaches above the opening (but
      below the top of the screen) or below the opening (but above the bottom). */
  lemma CollidesIff(x: int, gapY: int, player: Rect)
    requires GapInRange(gapY)
    requires player.width > 0.0 && player.height > 0.0
    ensures CollidesWith(x, gapY, player) <==>
      player.left < (x + 45) as real && player.Right() > (x + 25) as real &&
      ((player.top < (gapY - 20) as real && player.Bottom() > 0.0) ||
       (player.Bottom() > (gapY + 120) as real && player.top < HEIGHT as real))
  {
  }

  /** The threshold of is_offscreen: a pipe at x = -71 has left the screen,
      one at x = -70 or x = -69 has not. */
  lemma OffscreenThreshold()
    ensures IsOffscreen(-71) && !IsOffscreen(-70) && !IsOffscreen(-69)
  {
  }

  /** Once off-screen, a pipe stays off-screen as it scrolls, and both of its
      collision rectangles lie left of the screen. */
  lemma OffscreenIsFinal(x: int, gapY: int)
    requires IsOffscreen(x)
    ensures IsOffscreen(x - PIPE_SPEED)
    ensures forall r :: r in CollisionRects(x, gapY) ==> r.Right() < 0.0
  {
  }

  /** A pipe (src/main/main.py); its sprites and colour are not modelled. */
  class Pipe {
    var x: int
    const gapY: int
    var passed: bool

    function State(): PipeState
      reads this
    {
      PipeState(x, gapY, passed)
    }

    /** A new pipe at x with the drawn gap centre, not yet passed. */
    constructor (x: int, gapY: int)
      requires GapInRange(gapY)
      ensures State() == PipeState(x, gapY, false)
    {
      this.x := x;
      this.gapY := gapY;
      passed := false;
    }

    /** Scroll left by the pipe speed; the gap and the passed flag stay. */
    method Update()
      modifies this`x
      ensures x == old(x) - PIPE_SPEED
      ensures passed == old(passed)
      ensures State() == old(State()).(x := old(x) - PIPE_SPEED)
    {
      x := x - PIPE_SPEED;
    }
  }
}
