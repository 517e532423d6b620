/** The mutable world of the game loop: the bird, the pipe objects, the score,
    the game-over flag and the spawn timer (src/main/main.py, main). */
module Game {
  import opened Geometry
  import opened Seqs
  import opened Players
  import opened Pipes
  import opened Simulation

  /** The states of a sequence of pipe objects. */
  function States(ps: seq<Pipe>): seq<PipeState>
    reads ps
  {
    seq(|ps|, k requires 0 <= k < |ps| reads ps => ps[k].State())
  }

  /** The mutable world of main(): the bird, the pipe list, the score, the
      game-over flag and the spawn timer. */
  class World {
    var player: Player
    var pipes: seq<Pipe>
    var score: nat
    var gameOver: bool
    var lastPipeTime: int

    function State(): WorldState
      reads this, player, pipes
    {
      WorldState(player.State(), States(pipes), score, gameOver, lastPipeTime)
    }

    ghost predicate Valid()
      reads this, player, pipes
    {
      Distinct(pipes) && Invariant(State())
    }

    /** The start of main(): a fresh round, the spawn timer set to now. */
    constructor (currentTime: int, gapY: int)
      requires GapInRange(gapY)
      ensures Valid()
      ensures State() == ResetWorld(currentTime, gapY)
      ensures player.rotation == 0.0
    {
      player := new Player(START_X, START_Y);
      var pipe := new Pipe(RESTART_PIPE_X, gapY);
      pipes := [pipe];
      score := 0;
      gameOver := false;
      lastPipeTime := currentTime;
    }

    /** reset_game and the restart assignments (lines 198-202). */
    method Restart(currentTime: int, gapY: int)
      requires GapInRange(gapY)
      modifies this
      ensures Valid()
      ensures State() == ResetWorld(currentTime, gapY)
      ensures player.rotation == 0.0
      ensures fresh(player)
    {
      player := new Player(START_X, START_Y);
      var pipe := new Pipe(RESTART_PIPE_X, gapY);
      pipes := [pipe];
      score := 0;
      gameOver := false;
      lastPipeTime := currentTime;
    }

    /** A space key press (lines 197-205). */
    method Press(currentTime: int, gapY: int)
      requires Valid()
      requires GapInRange(gapY)
      modifies this, player
      ensures Valid()
      ensures State() == PressSpace(old(State()), currentTime, gapY)
      ensures old(gameOver) ==> player.rotation == 0.0
      ensures !old(gameOver) ==> player == old(player) && player.rotation == old(player.rotation)
      ensures !old(gameOver) ==> pipes == old(pipes)
    {
      if gameOver {
        Restart(currentTime, gapY);
      } else {
        player.Jump();
        PressPreservesInvariant(old(State()), currentTime, gapY);
      }
    }

    /** One frame of the simulation (lines 207-228). */
    method Step(currentTime: int, gapY: int)
      requires Valid()
      requires GapInRange(gapY)
      modifies this, player, pipes
      ensures Valid()
      ensures player == old(player)
      ensures fresh(set p | p in pipes && p !in old(pipes))
      ensures forall k :: 0 <= k < |pipes| - 1 ==> pipes[k] in old(pipes)
      ensures State() == StepWorld(old(State()), currentTime, gapY)
      ensures old(gameOver) ==> player.rotation == old(player.rotation)
      ensures old(gameOver) ==> pipes == old(pipes)
      ensures !old(gameOver) ==> player.rotation == Tilt(player.velocity)
      ensures !old(gameOver) ==> forall p :: p in old(pipes) ==> p.State() == Advance(old(p.State()), player.x)
      ensures old(gameOver) ==> forall p :: p in old(pipes) ==> p.State() == old(p.State())
    {
      if gameOver {
        return;
      }
      Fall();
      Scroll(currentTime, gapY);
      StepPreservesInvariant(old(State()), currentTime, gapY);
    }

    /** Lines 213-228: the timed spawn, then the loop over the pipes, with the
        bird already updated. */
    method Scroll(currentTime: int, gapY: int)
      requires Distinct(pipes) && GapInRange(gapY)
      modifies this`pipes, this`lastPipeTime, this`score, this`gameOver, pipes
      ensures Distinct(pipes)
      ensures fresh(set p | p in pipes && p !in old(pipes))
      ensures forall k :: 0 <= k < |pipes| - 1 ==> pipes[k] in old(pipes)
      ensures forall p :: p in old(pipes) ==> p.State() == Advance(old(p.State()), player.x)
      ensures State() == Scrolled(Spawned(old(State()), currentTime, gapY))
    {
      ghost var original := pipes;
      SpawnPipe(currentTime, gapY);
      ghost var spawned := State();
      ghost var copy := pipes;
      ghost var kept := AdvancePipes();
      ScrolledFrom(spawned, State());
      SurvivorsButLastAreOld(original, copy, kept);
      forall p | p in original
        ensures p.State() == Advance(old(p.State()), player.x)
      {
        var k :| 0 <= k < |original| && original[k] == p;
        assert States(copy)[k] == p.State();
      }
    }

    /** Lines 208-211: the bird's update and the bounds test. */
    method Fall()
      modifies this`gameOver, player
      ensures State() == Fallen(old(State()))
      ensures player.rotation == Tilt(player.velocity)
    {
      player.Update();
      if OutOfBounds(player.State()) {
        gameOver := true;
      }
    }

    /** Lines 213-215: once more than 1500 ms have passed since the last
        spawn, a new pipe is appended at the right edge and the spawn time
        moves to now. */
    method SpawnPipe(currentTime: int, gapY: int)
      requires Distinct(pipes) && GapInRange(gapY)
      modifies this`pipes, this`lastPipeTime
      ensures Distinct(pipes)
      ensures old(pipes) <= pipes && |pipes| <= |old(pipes)| + 1
      ensures fresh(set p | p in pipes && p !in old(pipes))
      ensures State() == Spawned(old(State()), currentTime, gapY)
    {
      if currentTime - lastPipeTime > PIPE_SPAWN_INTERVAL {
        var pipe := new Pipe(SPAWN_X, gapY);
        pipes := pipes + [pipe];
        lastPipeTime := currentTime;
      }
    }

    /** The loop over a copy of the pipe list (lines 217-228). */
    method AdvancePipes() returns (ghost kept: seq<bool>)
      requires Distinct(pipes)
      modifies this`pipes, this`score, this`gameOver, pipes
      ensures Distinct(pipes)
      ensures |kept| == |old(pipes)| && pipes == Select(old(pipes), kept)
      ensures forall p :: p in pipes ==> p in old(pipes)
      ensures States(old(pipes)) == AdvanceAll(old(States(pipes)), player.x)
      ensures States(pipes) == Survivors(AdvanceAll(old(States(pipes)), player.x))
      ensures score == old(score) + PassCount(old(States(pipes)), player.x)
      ensures gameOver == (old(gameOver) ||
                           AnyCollision(AdvanceAll(old(States(pipes)), player.x), PlayerRect(player.State())))
    {
      var snapshot := pipes;
      ghost var before := States(snapshot);
      VisitedStart(snapshot, before);
      Turns(snapshot, before, old(score), old(gameOver));
      VisitedEnd(snapshot, before, old(score), old(gameOver));
      kept := OnScreen(AdvanceAll(before, player.x));
    }

    /** The for loop itself: one turn per pipe of the copy, in order. */
    method Turns(snapshot: seq<Pipe>, ghost before: seq<PipeState>, ghost score0: nat, ghost over0: bool)
      requires Visited(snapshot, before, score0, over0, 0)
      modifies this`pipes, this`score, this`gameOver, snapshot
      ensures Visited(snapshot, before, score0, over0, |snapshot|)
    {
      for i := 0 to |snapshot|
        invariant Visited(snapshot, before, score0, over0, i)
      {
        TakeTurn(snapshot, before, score0, over0, i);
      }
    }

    /** After i turns of the loop over the copy snapshot of the list, whose
        pipes had the states before: the visited pipes have moved, the list
        is the copy without the visited pipes that left the screen, and the
        score and the game-over flag account for the visited pipes. */
    ghost predicate Visited(snapshot: seq<Pipe>, before: seq<PipeState>, score0: nat, over0: bool, i: int)
      reads this, player, snapshot
    {
      LoopState(pipes, snapshot, States(snapshot), before, player.x, PlayerRect(player.State()),
                score, score0, gameOver, over0, i)
    }

    lemma VisitedStart(snapshot: seq<Pipe>, before: seq<PipeState>)
      requires Distinct(snapshot) && snapshot == pipes && before == States(snapshot)
      ensures Visited(snapshot, before, score, gameOver, 0)
    {
      var moved := AdvanceAll(before, player.x);
      SelectAll(snapshot, Pending(OnScreen(moved), 0));
      assert Mix(moved, before, 0) == before;
      assert moved[..0] == [];
    }

    lemma VisitedEnd(snapshot: seq<Pipe>, before: seq<PipeState>, score0: nat, over0: bool)
      requires Visited(snapshot, before, score0, over0, |snapshot|)
      ensures Distinct(pipes)
      ensures pipes == Select(snapshot, OnScreen(AdvanceAll(before, player.x)))
      ensures forall p :: p in pipes ==> p in snapshot
      ensures States(snapshot) == AdvanceAll(before, player.x)
      ensures States(pipes) == Survivors(AdvanceAll(before, player.x))
      ensures score == score0 + PassCount(before, player.x)
      ensures gameOver == (over0 || AnyCollision(AdvanceAll(before, player.x), PlayerRect(player.State())))
    {
      var moved := AdvanceAll(before, player.x);
      var mask := OnScreen(moved);
      var n := |snapshot|;
      MixStep(moved, before, mask, n);
      assert before[..n] == before && moved[..n] == moved;
      SelectDistinct(snapshot, mask);
      forall p | p in pipes
        ensures p in snapshot
      {
        SelectMembership(snapshot, mask, p);
      }
      StatesOfSelect(snapshot, mask);
    }

    /** One turn of the loop, with its effect on the loop's summary. */
    method TakeTurn(snapshot: seq<Pipe>, ghost before: seq<PipeState>, ghost score0: nat, ghost over0: bool, i: int)
      requires i < |snapshot| && Visited(snapshot, before, score0, over0, i)
      modifies this`pipes, this`score, this`gameOver, snapshot[i]
      ensures Visited(snapshot, before, score0, over0, i + 1)
    {
      ghost var moved := AdvanceAll(before, player.x);
      ghost var mask := OnScreen(moved);
      MixStep(moved, before, mask, i);
      assert snapshot[i].State() == before[i];
      Turn(snapshot, Pending(mask, i), i);
      assert snapshot[i].State() == moved[i];
      TurnBookkeeping(before, moved, player.x, PlayerRect(player.State()), i);
    }

    /** The loop body for the pipe at position i of the copy (lines 218-228):
        it scrolls, may end the round, leaves the list once off-screen and
        scores once its trailing edge is left of the bird. The flags in keep
        mark which pipes of the copy are still in the list. */
    method Turn(snapshot: seq<Pipe>, ghost keep: seq<bool>, i: int)
      requires 0 <= i < |snapshot| == |keep| && keep[i] && Distinct(snapshot)
      requires pipes == Select(snapshot, keep)
      modifies this`pipes, this`score, this`gameOver, snapshot[i]
      ensures snapshot[i].State() == Advance(old(snapshot[i].State()), player.x)
      ensures States(snapshot) == old(States(snapshot))[i := snapshot[i].State()]
      ensures pipes == Select(snapshot, keep[i := !IsOffscreen(snapshot[i].x)])
      ensures score == old(score) + (if NewlyPassed(old(snapshot[i].State()), player.x) then 1 else 0)
      ensures gameOver == (old(gameOver) ||
                           CollidesWith(snapshot[i].x, snapshot[i].gapY, PlayerRect(player.State())))
    {
      var pipe := snapshot[i];
      pipe.Update();
      if CollidesWith(pipe.x, pipe.gapY, PlayerRect(player.State())) {
        gameOver := true;
      }
      if IsOffscreen(pipe.x) {
        SelectRemove(snapshot, keep, i);
        pipes := RemoveFirst(pipes, pipe);
      } else {
        assert keep[i := true] == keep;
      }
      if !pipe.passed && ((pipe.x + PIPE_WIDTH) as real) < player.x {
        pipe.passed := true;
        score := score + 1;
      }
    }
  }


  /** Filtering a list that extends an old one by at most one element keeps,
      in every position but the last, only old elements. */
  lemma SurvivorsButLastAreOld<T>(original: seq<T>, copy: seq<T>, kept: seq<bool>)
    requires original <= copy && |copy| <= |original| + 1 && |kept| == |copy|
    ensures forall k :: 0 <= k < |Select(copy, kept)| - 1 ==> Select(copy, kept)[k] in original
  {
    SelectButLast(copy, kept);
    if copy != [] {
      assert forall x :: x in copy[..|copy| - 1] ==> x in original;
    }
  }

  /** Filtering pipe objects by a mask filters their states the same way. */
  lemma {:induction false} StatesOfSelect(ps: seq<Pipe>, keep: seq<bool>)
    requires |keep| == |ps|
    ensures States(Select(ps, keep)) == Select(States(ps), keep)
  {
    if ps != [] {
      var n := |ps| - 1;
      StatesOfSelect(ps[..n], keep[..n]);
      assert States(ps)[..n] == States(ps[..n]);
      assert States(Select(ps, keep)) ==
        States(Select(ps[..n], keep[..n])) + States(if keep[n] then [ps[n]] else []);
    }
  }
}
