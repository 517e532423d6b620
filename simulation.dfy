/** The simulated world as a value: one frame of the game loop and a key
    press as functions of the world (src/main/main.py, main and reset_game). */
module Simulation {
  import opened Geometry
  import opened Seqs
  import opened Players
  import opened Pipes

  const PIPE_SPAWN_INTERVAL: int := 1500
  /** New pipes appear at the right edge of the screen. */
  const SPAWN_X: int := WIDTH
  /** The pipe of a fresh round starts 200 pixels beyond the right edge. */
  const RESTART_PIPE_X: int := WIDTH + 200
  const START_X: real := (WIDTH / 4) as real
  const START_Y: real := (HEIGHT / 2) as real

  /** The bird at its spawn point, at rest. */
  function StartBody(): Body
  {
    Body(START_X, START_Y, 0.0)
  }

  /** The bounds test uses the drawn radius 30, not the hitbox. */
  predicate OutOfBounds(b: Body)
  {
    b.y - SIZE < 0.0 || b.y + SIZE > HEIGHT as real
  }

  /** Everything the simulation keeps between frames. */
  datatype WorldState = WorldState(
    player: Body,
    pipes: seq<PipeState>,
    score: nat,
    gameOver: bool,
    lastPipeTime: int)

  /** reset_game together with the two assignments that follow it. */
  function ResetWorld(currentTime: int, gapY: int): WorldState
  {
    WorldState(StartBody(), [PipeState(RESTART_PIPE_X, gapY, false)], 0, false, currentTime)
  }

  predicate SpawnDue(currentTime: int, lastPipeTime: int)
  {
    currentTime - lastPipeTime > PIPE_SPAWN_INTERVAL
  }

  /** Lines 208-211: the bird falls one update, and the round ends if it has
      left the screen. */
  function Fallen(w: WorldState): WorldState
  {
    var b := Tick(w.player);
    w.(player := b, gameOver := w.gameOver || OutOfBounds(b))
  }

  /** Lines 213-215: a new pipe at the right edge once the spawn interval
      has elapsed. */
  function Spawned(w: WorldState, currentTime: int, gapY: int): WorldState
  {
    if SpawnDue(currentTime, w.lastPipeTime)
    then w.(pipes := w.pipes + [PipeState(SPAWN_X, gapY, false)], lastPipeTime := currentTime)
    else w
  }

  /** A pipe's turn in the loop: it scrolls, then is marked passed once its
      trailing edge is left of the bird. */
  function Advance(p: PipeState, birdX: real): PipeState
  {
    var x := p.x - PIPE_SPEED;
    PipeState(x, p.gapY, p.passed || ((x + PIPE_WIDTH) as real) < birdX)
  }

  /** The pipe scores on this turn. */
  predicate NewlyPassed(p: PipeState, birdX: real)
  {
    !p.passed && ((p.x - PIPE_SPEED + PIPE_WIDTH) as real) < birdX
  }

  function AdvanceAll(ps: seq<PipeState>, birdX: real): seq<PipeState>
  {
    seq(|ps|, k requires 0 <= k < |ps| => Advance(ps[k], birdX))
  }

  /** How many of the pipes score on this turn; at most one each. */
  function PassCount(ps: seq<PipeState>, birdX: real): (n: nat)
    ensures n <= |ps|
    ensures (forall k :: 0 <= k < |ps| ==> ps[k].passed) ==> n == 0
  {
    if ps == [] then 0
    else PassCount(ps[..|ps| - 1], birdX) + (if NewlyPassed(ps[|ps| - 1], birdX) then 1 else 0)
  }

  predicate AnyCollision(ms: seq<PipeState>, hitbox: Rect)
  {
    exists k :: 0 <= k < |ms| && CollidesWith(ms[k].x, ms[k].gapY, hitbox)
  }

  function OnScreen(ms: seq<PipeState>): seq<bool>
  {
    seq(|ms|, k requires 0 <= k < |ms| => !IsOffscreen(ms[k].x))
  }

  /** The moved pipes that are not removed, in their order. */
  function Survivors(ms: seq<PipeState>): seq<PipeState>
  {
    Select(ms, OnScreen(ms))
  }

  /** Lines 217-228: the loop over a copy of the pipe list. Every pipe
      scrolls; the round ends if one of them meets the hitbox; the ones that
      left the screen are dropped; each pipe newly passed scores one. */
  function Scrolled(w: WorldState): WorldState
  {
    var ms := AdvanceAll(w.pipes, w.player.x);
    w.(pipes := Survivors(ms),
       score := w.score + PassCount(w.pipes, w.player.x),
       gameOver := w.gameOver || AnyCollision(ms, PlayerRect(w.player)))
  }

  /** One frame of the simulation (lines 207-228): nothing moves once the
      round is over. */
  function StepWorld(w: WorldState, currentTime: int, gapY: int): WorldState
  {
    if w.gameOver then w else Scrolled(Spawned(Fallen(w), currentTime, gapY))
  }

  /** A space key press (lines 197-205): restart a finished round, else jump. */
  function PressSpace(w: WorldState, currentTime: int, gapY: int): WorldState
  {
    if w.gameOver then ResetWorld(currentTime, gapY)
    else w.(player := Jumped(w.player))
  }

  /** What holds in every reachable state: the bird stays at x = 200; pipes
      have a gap centre from the generator's range, none is off-screen, and a
      pipe is marked passed exactly when its trailing edge is left of the
      bird. */
  ghost predicate Invariant(w: WorldState)
  {
    w.player.x == START_X &&
    forall q :: q in w.pipes ==>
      GapInRange(q.gapY) && !IsOffscreen(q.x) &&
      (q.passed <==> ((q.x + PIPE_WIDTH) as real) < w.player.x)
  }

  /** A restart yields the bird at (200, 300) at rest, exactly one unpassed
      pipe at x = 1000, score 0, a running round and a spawn timer set to now;
      that state satisfies the invariant. */
  lemma ResetWorldIsFreshRound(currentTime: int, gapY: int)
    requires GapInRange(gapY)
    ensures var w := ResetWorld(currentTime, gapY);
      w.player == Body(200.0, 300.0, 0.0) &&
      w.pipes == [PipeState(1000, gapY, false)] &&
      w.score == 0 && !w.gameOver && w.lastPipeTime == currentTime &&
      Invariant(w)
  {
  }

  /** While the round is over, a step changes nothing. */
  lemma StepFrozenWhenOver(w: WorldState, currentTime: int, gapY: int)
    requires w.gameOver
    ensures StepWorld(w, currentTime, gapY) == w
  {
  }

  /** In a running step the score never decreases and rises by at most the
      number of pipes the loop walks over. */
  lemma StepScoreBounds(w: WorldState, currentTime: int, gapY: int)
    ensures var w' := StepWorld(w, currentTime, gapY);
      w.score <= w'.score <= w.score + |Spawned(w, currentTime, gapY).pipes|
  {
  }

  /** A pipe's turn: it moves left by exactly 3, keeps its gap, and its passed
      flag only goes from false to true, doing so exactly when it scores. */
  lemma AdvanceOneWay(p: PipeState, birdX: real)
    ensures Advance(p, birdX).x == p.x - PIPE_SPEED && Advance(p, birdX).gapY == p.gapY
    ensures p.passed ==> Advance(p, birdX).passed
    ensures (!p.passed && Advance(p, birdX).passed) <==> NewlyPassed(p, birdX)
  {
  }

  /** After a running step no pipe is off-screen, the surviving pipes keep
      their relative order, and every moved pipe still on screen survives. */
  lemma StepPipes(w: WorldState, currentTime: int, gapY: int)
    requires !w.gameOver
    ensures var w' := StepWorld(w, currentTime, gapY);
      var ms := AdvanceAll(Spawned(w, currentTime, gapY).pipes, w'.player.x);
      IsSubsequence(w'.pipes, ms) &&
      (forall q :: q in w'.pipes ==> !IsOffscreen(q.x)) &&
      (forall k :: 0 <= k < |ms| && !IsOffscreen(ms[k].x) ==> ms[k] in w'.pipes)
  {
    var w' := StepWorld(w, currentTime, gapY);
    var ms := AdvanceAll(Spawned(w, currentTime, gapY).pipes, w'.player.x);
    assert w'.pipes == Survivors(ms);
    SelectIsSubsequence(ms, OnScreen(ms));
    forall q | q in w'.pipes
      ensures !IsOffscreen(q.x)
    {
      SelectMembership(ms, OnScreen(ms), q);
    }
    forall k | 0 <= k < |ms| && !IsOffscreen(ms[k].x)
      ensures ms[k] in w'.pipes
    {
      SelectMembership(ms, OnScreen(ms), ms[k]);
    }
  }

  /** The round ends in a running step exactly when the bird, after its
      update, is out of bounds or some moved pipe collides with its hitbox. */
  lemma StepGameOver(w: WorldState, currentTime: int, gapY: int)
    requires !w.gameOver
    ensures var w' := StepWorld(w, currentTime, gapY);
      var ms := AdvanceAll(Spawned(w, currentTime, gapY).pipes, w'.player.x);
      w'.gameOver <==>
        (w'.player.y - 30.0 < 0.0 || w'.player.y + 30.0 > 600.0 ||
         exists k :: 0 <= k < |ms| && CollidesWith(ms[k].x, ms[k].gapY, PlayerRect(w'.player)))
  {
  }

  /** A pipe is appended at x = 800 exactly when more than 1500 ms have passed
      since the last spawn, and only then is the spawn time moved to now. */
  lemma StepSpawnRule(w: WorldState, currentTime: int, gapY: int)
    requires !w.gameOver
    ensures var w' := StepWorld(w, currentTime, gapY);
      var ps := Spawned(w, currentTime, gapY).pipes;
      if currentTime - w.lastPipeTime > 1500
      then ps == w.pipes + [PipeState(800, gapY, false)] && w'.lastPipeTime == currentTime
      else ps == w.pipes && w'.lastPipeTime == w.lastPipeTime
  {
  }

  /** Every step keeps the invariant. */
  lemma StepPreservesInvariant(w: WorldState, currentTime: int, gapY: int)
    requires Invariant(w)
    requires GapInRange(gapY)
    ensures Invariant(StepWorld(w, currentTime, gapY))
  {
    if !w.gameOver {
      var w' := StepWorld(w, currentTime, gapY);
      var ps := Spawned(w, currentTime, gapY).pipes;
      var ms := AdvanceAll(ps, w'.player.x);
      assert w'.player.x == w.player.x;
      assert w'.pipes == Survivors(ms);
      SpawnedKeepPassedRule(w, currentTime, gapY);
      forall q | q in w'.pipes
        ensures GapInRange(q.gapY) && !IsOffscreen(q.x)
        ensures q.passed <==> ((q.x + PIPE_WIDTH) as real) < w'.player.x
      {
        SelectMembership(ms, OnScreen(ms), q);
        var k :| 0 <= k < |ms| && OnScreen(ms)[k] && ms[k] == q;
        assert ps[k] in ps;
      }
    }
  }

  /** The pipes a frame visits, old ones and the spawned one, have their gap
      in range and are passed exactly when their trailing edge is left of the
      bird. */
  lemma SpawnedKeepPassedRule(w: WorldState, currentTime: int, gapY: int)
    requires Invariant(w) && GapInRange(gapY)
    ensures forall q :: q in Spawned(w, currentTime, gapY).pipes ==>
      GapInRange(q.gapY) && (q.passed <==> ((q.x + PIPE_WIDTH) as real) < w.player.x)
  {
    forall q | q in Spawned(w, currentTime, gapY).pipes
      ensures GapInRange(q.gapY) && (q.passed <==> ((q.x + PIPE_WIDTH) as real) < w.player.x)
    {
      assert q in w.pipes || q == PipeState(SPAWN_X, gapY, false);
    }
  }

  /** Key presses keep the invariant too. */
  lemma PressPreservesInvariant(w: WorldState, currentTime: int, gapY: int)
    requires Invariant(w)
    requires GapInRange(gapY)
    ensures Invariant(PressSpace(w, currentTime, gapY))
  {
  }

  /** How a frame scores, pipe by pipe: in a running frame, a pipe the loop
      visits adds a point exactly when its x before the frame is 130, 131 or
      132, that is, when its trailing edge moves from at or right of the bird
      (x = 200) to left of it. A pipe that stays on screen is the same pipe
      moved left by exactly 3 (AdvanceOneWay, StepPipes), so a pipe scores in
      at most one running frame: by WindowCrossedOnce, exactly one j puts
      x0 - 3j in the window when x0 >= 130. */
  lemma ScoreWindow(w: WorldState, currentTime: int, gapY: int, k: int)
    requires Invariant(w) && !w.gameOver
    requires 0 <= k < |Spawned(w, currentTime, gapY).pipes|
    ensures var q := Spawned(w, currentTime, gapY).pipes[k];
      NewlyPassed(q, StepWorld(w, currentTime, gapY).player.x) <==> 130 <= q.x <= 132
    ensures StepWorld(w, currentTime, gapY).score ==
      w.score + PassCount(Spawned(w, currentTime, gapY).pipes, START_X)
  {
    var ps := Spawned(w, currentTime, gapY).pipes;
    assert Spawned(Fallen(w), currentTime, gapY).pipes == ps;
    assert ps[k] in w.pipes || ps[k] == PipeState(SPAWN_X, gapY, false);
  }

  /** A pipe's x after j frames that each move it left by 3. */
  function XAfter(x0: int, j: nat): int
  {
    x0 - PIPE_SPEED * j
  }

  /** The scoring window [130, 132] of ScoreWindow is 3 wide and a pipe moves
      3 per frame, so a pipe that starts at or right of the window is in it
      in exactly one frame, and one that starts left of it never is. */
  lemma WindowCrossedOnce(x0: int)
    ensures x0 >= 130 ==> exists j: nat :: 130 <= XAfter(x0, j) <= 132
    ensures forall i: nat, j: nat :: 130 <= XAfter(x0, i) <= 132 && 130 <= XAfter(x0, j) <= 132 ==> i == j
    ensures x0 < 130 ==> forall j: nat :: !(130 <= XAfter(x0, j) <= 132)
  {
    if x0 >= 130 {
      var j := (x0 - 130) / PIPE_SPEED;
      assert 130 <= XAfter(x0, j) <= 132;
    }
  }

  /** Score a single pipe contributes over n turns of the loop. */
  function Lifetime(p: PipeState, n: nat, birdX: real): nat
    decreases n
  {
    if n == 0 then 0
    else (if NewlyPassed(p, birdX) then 1 else 0) + Lifetime(Advance(p, birdX), n - 1, birdX)
  }

  /** Each pipe adds at most 1 to the score over its lifetime, and nothing
      once it is marked passed. */
  lemma {:induction false} ScoredAtMostOnce(p: PipeState, n: nat, birdX: real)
    ensures Lifetime(p, n, birdX) <= 1
    ensures p.passed ==> Lifetime(p, n, birdX) == 0
    decreases n
  {
    if n > 0 {
      ScoredAtMostOnce(Advance(p, birdX), n - 1, birdX);
    }
  }

  /** An unpassed pipe scores exactly once, on the first turn its trailing
      edge ends left of the bird, and not before. */
  lemma {:induction false} ScoredWhenCrossing(p: PipeState, n: nat, birdX: real)
    requires !p.passed
    ensures Lifetime(p, n, birdX) ==
      if n > 0 && ((p.x - PIPE_SPEED * n + PIPE_WIDTH) as real) < birdX then 1 else 0
    decreases n
  {
    if n > 0 {
      var q := Advance(p, birdX);
      if NewlyPassed(p, birdX) {
        ScoredAtMostOnce(q, n - 1, birdX);
      } else {
        ScoredWhenCrossing(q, n - 1, birdX);
        assert q.x - PIPE_SPEED * (n - 1) == p.x - PIPE_SPEED * n;
      }
    }
  }

  /** The world after a sequence of frames without key presses; each frame
      gives the clock reading and the gap centre a spawn would draw. */
  function Run(w: WorldState, frames: seq<(int, int)>): WorldState
    decreases |frames|
  {
    if frames == [] then w
    else Run(StepWorld(w, frames[0].0, frames[0].1), frames[1..])
  }

  /** Once the round is over, further frames are no-ops: score and world are
      frozen. */
  lemma {:induction false} RunFrozen(w: WorldState, frames: seq<(int, int)>)
    requires w.gameOver
    ensures Run(w, frames) == w
    decreases |frames|
  {
    if frames != [] {
      RunFrozen(w, frames[1..]);
    }
  }

  /** Falling from the spawn point without a jump, the bird stays in bounds
      for 32 updates and is out of bounds after the 33rd. */
  lemma FallFromStart(k: nat)
    ensures k <= 32 ==> !OutOfBounds(Ticks(StartBody(), k))
    ensures k == 33 ==> OutOfBounds(Ticks(StartBody(), k))
  {
    var n := k as real;
    var p := n * (n + 1.0);
    FallFromRest(StartBody(), k, n, p);
    FallArithmetic(n);
    FallBounds(Ticks(StartBody(), k), p);
  }

  /** From rest, k updates make the bird fall k(k+1)/4. */
  lemma FallFromRest(b: Body, k: nat, n: real, p: real)
    requires b.velocity == 0.0 && n == k as real && p == n * (n + 1.0)
    ensures Ticks(b, k).y == b.y + GRAVITY * p / 2.0
  {
    TicksClosedForm(b, k);
  }

  /** The bounds test for a bird at rest height plus a fall of p/4. */
  lemma FallBounds(b: Body, p: real)
    requires b.y == START_Y + GRAVITY * p / 2.0
    ensures 0.0 <= p <= 1056.0 ==> !OutOfBounds(b)
    ensures p == 1122.0 ==> OutOfBounds(b)
  {
  }

  /** The fall after n updates from rest is n(n+1)/4: at most 264 for
      n <= 32, and 280.5 for n = 33. */
  lemma FallArithmetic(n: real)
    requires 0.0 <= n
    ensures n <= 32.0 ==> 0.0 <= n * (n + 1.0) <= 1056.0
    ensures n == 33.0 ==> n * (n + 1.0) == 1122.0
  {
    if n <= 32.0 {
      ProductNonnegative(n, n + 1.0);
      ProductNonnegative(32.0 - n, n + 1.0);
    }
  }

  /** A product of two non-negative reals is non-negative. */
  lemma ProductNonnegative(a: real, b: real)
    requires 0.0 <= a && 0.0 <= b
    ensures 0.0 <= a * b
  {
  }

  /** A running world whose bird has fallen n updates from the spawn point
      without a jump ends its round within 33 - n further frames. */
  lemma {:induction false} FallsOut(w: WorldState, frames: seq<(int, int)>, n: nat)
    requires w.gameOver || (w.player == Ticks(StartBody(), n) && n < 33 && n + |frames| >= 33)
    ensures Run(w, frames).gameOver
    decreases |frames|
  {
    if w.gameOver {
      RunFrozen(w, frames);
    } else {
      var w1 := StepWorld(w, frames[0].0, frames[0].1);
      assert w1.player == Ticks(StartBody(), n + 1);
      if n + 1 == 33 {
        FallFromStart(33);
        RunFrozen(w1, frames[1..]);
      } else {
        FallsOut(w1, frames[1..], n + 1);
      }
    }
  }

  /** A round in which the bird never jumps is over within 33 frames. */
  lemma NoJumpRoundEnds(currentTime: int, gapY: int, frames: seq<(int, int)>)
    requires |frames| >= 33
    ensures Run(ResetWorld(currentTime, gapY), frames).gameOver
  {
    FallsOut(ResetWorld(currentTime, gapY), frames, 0);
  }

  /** The first 32 frames of a round without jumps leave it running, so with
      NoJumpRoundEnds such a round lasts exactly 33 frames. */
  lemma NoJumpRoundRunning(currentTime: int, gapY: int, frames: seq<(int, int)>)
    requires |frames| <= 32
    ensures !Run(ResetWorld(currentTime, gapY), frames).gameOver
  {
    StaysRunning(ResetWorld(currentTime, gapY), frames, 0);
  }

  /** A running world whose bird has fallen n updates from the spawn point,
      and whose pipes are all at x >= 800 - 3n, is still running after
      32 - n more frames. */
  lemma {:induction false} StaysRunning(w: WorldState, frames: seq<(int, int)>, n: nat)
    requires !w.gameOver && w.player == Ticks(StartBody(), n) && n + |frames| <= 32
    requires forall q :: q in w.pipes ==> q.x >= SPAWN_X - PIPE_SPEED * n
    ensures !Run(w, frames).gameOver
    decreases |frames|
  {
    if frames != [] {
      StepStaysRunning(w, frames[0].0, frames[0].1, n);
      StaysRunning(StepWorld(w, frames[0].0, frames[0].1), frames[1..], n + 1);
    }
  }

  /** One frame of such a world: the bird is still in bounds, no pipe reaches
      the hitbox, and every pipe is at most 3 further left. */
  lemma StepStaysRunning(w: WorldState, currentTime: int, gapY: int, n: nat)
    requires !w.gameOver && w.player == Ticks(StartBody(), n) && n < 32
    requires forall q :: q in w.pipes ==> q.x >= SPAWN_X - PIPE_SPEED * n
    ensures var w' := StepWorld(w, currentTime, gapY);
      !w'.gameOver && w'.player == Ticks(StartBody(), n + 1) &&
      forall q :: q in w'.pipes ==> q.x >= SPAWN_X - PIPE_SPEED * (n + 1)
  {
    var b := Tick(w.player);
    FallFromStart(n + 1);
    TicksKeepX(StartBody(), n + 1);
    var ps := Spawned(w, currentTime, gapY).pipes;
    var ms := AdvanceAll(ps, b.x);
    forall k | 0 <= k < |ms|
      ensures ms[k].x >= SPAWN_X - PIPE_SPEED * (n + 1)
      ensures !CollidesWith(ms[k].x, ms[k].gapY, PlayerRect(b))
    {
      assert ps[k] in w.pipes || ps[k].x == SPAWN_X;
      FarRightMisses(ms[k].x, ms[k].gapY, PlayerRect(b));
    }
    var w' := StepWorld(w, currentTime, gapY);
    assert w'.pipes == Survivors(ms);
    forall q | q in w'.pipes
      ensures q.x >= SPAWN_X - PIPE_SPEED * (n + 1)
    {
      SelectMembership(ms, OnScreen(ms), q);
    }
  }

  /** A pipe whose padded column starts at or right of the hitbox's right
      edge does not collide with it. */
  lemma FarRightMisses(x: int, gapY: int, hitbox: Rect)
    requires hitbox.width >= 0.0 && hitbox.Right() <= (x + HORIZONTAL_PADDING) as real
    ensures !CollidesWith(x, gapY, hitbox)
  {
  }

  /** A state whose parts are those of Scrolled(w) is Scrolled(w). */
  lemma ScrolledFrom(w: WorldState, w': WorldState)
    requires w'.player == w.player && w'.lastPipeTime == w.lastPipeTime
    requires w'.pipes == Survivors(AdvanceAll(w.pipes, w.player.x))
    requires w'.score == w.score + PassCount(w.pipes, w.player.x)
    requires w'.gameOver == (w.gameOver || AnyCollision(AdvanceAll(w.pipes, w.player.x), PlayerRect(w.player)))
    ensures w' == Scrolled(w)
  {
  }

  /** The flags of the loop after i turns: the final mask for the visited
      pipes, set for the rest. */
  function Pending(mask: seq<bool>, i: int): (r: seq<bool>)
    requires 0 <= i <= |mask|
    ensures |r| == |mask|
  {
    mask[..i] + seq(|mask| - i, k => true)
  }

  /** The states after i turns: moved for the visited pipes, unchanged for
      the rest. */
  function Mix(moved: seq<PipeState>, before: seq<PipeState>, i: int): (r: seq<PipeState>)
    requires |moved| == |before| && 0 <= i <= |before|
    ensures |r| == |before|
  {
    moved[..i] + before[i..]
  }

  /** How the flags and the states of the loop change in one turn, and what
      they are after the last. */
  lemma MixStep(moved: seq<PipeState>, before: seq<PipeState>, mask: seq<bool>, i: int)
    requires |moved| == |before| == |mask| && 0 <= i <= |before|
    ensures i < |before| ==> Mix(moved, before, i)[i] == before[i]
    ensures i < |before| ==> Mix(moved, before, i)[i := moved[i]] == Mix(moved, before, i + 1)
    ensures i < |before| ==> Pending(mask, i)[i] && Pending(mask, i)[i := mask[i]] == Pending(mask, i + 1)
    ensures i == |before| ==> Mix(moved, before, i) == moved && Pending(mask, i) == mask
  {
    if i < |before| {
      assert Mix(moved, before, i)[i := moved[i]] == Mix(moved, before, i + 1);
      assert Pending(mask, i)[i := mask[i]] == Pending(mask, i + 1);
    } else {
      assert Mix(moved, before, i) == moved;
      assert Pending(mask, i) == mask;
    }
  }

  /** How the score and the collision flag grow by one turn. */
  lemma TurnBookkeeping(before: seq<PipeState>, moved: seq<PipeState>, birdX: real, hitbox: Rect, i: int)
    requires |before| == |moved| && 0 <= i < |moved|
    ensures PassCount(before[..i + 1], birdX) ==
            PassCount(before[..i], birdX) + (if NewlyPassed(before[i], birdX) then 1 else 0)
    ensures AnyCollision(moved[..i + 1], hitbox) <==>
            AnyCollision(moved[..i], hitbox) || CollidesWith(moved[i].x, moved[i].gapY, hitbox)
  {
    assert before[..i + 1][..i] == before[..i];
    assert moved[..i + 1][..i] == moved[..i];
  }

  /** The state of the pipe loop after i turns over the copy snapshot of the
      list, whose pipes had the states before: list is the copy without the
      visited pipes that left the screen, states are the copy's states with
      the visited ones moved, and the score and the game-over flag account
      for the visited pipes. */
  ghost predicate LoopState<T>(list: seq<T>, snapshot: seq<T>, states: seq<PipeState>,
                               before: seq<PipeState>, birdX: real, hitbox: Rect,
                               score: int, score0: int, over: bool, over0: bool, i: int)
  {
    var moved := AdvanceAll(before, birdX);
    0 <= i <= |snapshot| == |before| && Distinct(snapshot) &&
    list == Select(snapshot, Pending(OnScreen(moved), i)) &&
    states == Mix(moved, before, i) &&
    score == score0 + PassCount(before[..i], birdX) &&
    over == (over0 || AnyCollision(moved[..i], hitbox))
  }
}
