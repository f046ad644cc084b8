/**
 * One play session of the racing game: steering, the spawn timer, obstacle motion, the
 * collision test and the score, first as functions on snapshots and then as the Game
 * object whose fields game_loop updates frame by frame.
 */
module Race {
  import opened Config
  import opened Rects
  import opened Obstacles

  /** What one frame reads from the outside world: the arrow keys held, and the column a spawn would use. */
  datatype Input = Input(left: bool, right: bool, spawnX: SpawnX)

  /** The session state between two frames. */
  datatype Snapshot = Snapshot(car: Rect, obstacles: seq<Rect>, timer: int, score: int)

  /** Where the outcome of a run of frames left the session. */
  datatype Outcome = Outcome(last: Snapshot, frames: nat, crashed: bool)

  /** The car has its fixed size and row, lies within the screen, and sits on the 5-pixel grid it started on. */
  predicate OnTrack(car: Rect) {
    car.w == CAR_WIDTH && car.h == CAR_HEIGHT && car.y == CAR_START_Y &&
    0 <= car.Left() && car.Right() <= WIDTH && car.x % CAR_SPEED == 0
  }

  /** An obstacle as spawning and moving leave it: full size, within the screen's width, between its first position and the bottom edge. */
  predicate InFlight(o: Rect) {
    o.w == OBSTACLE_WIDTH && o.h == OBSTACLE_HEIGHT &&
    0 <= o.Left() && o.Right() <= WIDTH &&
    OBSTACLE_SPEED - OBSTACLE_HEIGHT <= o.y < HEIGHT && o.y % OBSTACLE_SPEED == 0
  }

  /** The invariant that holds between any two frames of a session. */
  predicate Inv(s: Snapshot) {
    OnTrack(s.car) && 0 <= s.timer <= SPAWN_THRESHOLD && s.score >= 0 &&
    forall o :: o in s.obstacles ==> InFlight(o)
  }

  /** The state at the start of every session: car centred at the bottom, no obstacles, timer and score zero. */
  function Start(): (s: Snapshot)
    ensures Inv(s) && s.car.x + s.car.w / 2 == WIDTH / 2 && s.car.Bottom() == HEIGHT - 10
    ensures s.obstacles == [] && s.timer == 0 && s.score == 0
  {
    Snapshot(Rect(CAR_START_X, CAR_START_Y, CAR_WIDTH, CAR_HEIGHT), [], 0, 0)
  }

  /**
   * Steering: the left key moves the car 5 pixels left if its left edge is right of the
   * screen's left edge; then the right key moves it 5 pixels right if its right edge is left
   * of the screen's right edge. This is a guard, not a clamp.
   */
  function Steer(car: Rect, left: bool, right: bool): (r: Rect)
    ensures r.y == car.y && r.w == car.w && r.h == car.h
    ensures r.x - car.x in {-CAR_SPEED, 0, CAR_SPEED}
    ensures !left ==> r.x >= car.x
    ensures !right ==> r.x <= car.x
    ensures OnTrack(car) ==> OnTrack(r)
    ensures left && !right && car.Left() > 0 ==> r.x == car.x - CAR_SPEED
    ensures right && !left && car.Right() < WIDTH ==> r.x == car.x + CAR_SPEED
    ensures !(left && car.Left() > 0) && !(right && car.Right() < WIDTH) ==> r == car
    ensures left && right && car.Left() > 0 && car.Right() - CAR_SPEED < WIDTH ==> r == car
    ensures left && right && car.Left() <= 0 && car.Right() < WIDTH ==> r.x == car.x + CAR_SPEED
  {
    var afterLeft := if left && car.Left() > 0 then car.(x := car.x - CAR_SPEED) else car;
    if right && afterLeft.Right() < WIDTH then afterLeft.(x := afterLeft.x + CAR_SPEED) else afterLeft
  }

  /** The guard alone does not keep a car off the 5-pixel grid on screen. */
  lemma GuardIsNotAClamp()
    ensures Steer(Rect(2, CAR_START_Y, CAR_WIDTH, CAR_HEIGHT), true, false).x == -3
    ensures Steer(Rect(748, CAR_START_Y, CAR_WIDTH, CAR_HEIGHT), false, true).Right() == WIDTH + 3
  {
  }

  /** The frame counter spawns once its incremented value exceeds the threshold. */
  predicate Spawns(timer: int) {
    timer + 1 > SPAWN_THRESHOLD
  }

  /** The frame counter after one frame. */
  function NextTimer(timer: int): (t: int)
    ensures 0 <= timer <= SPAWN_THRESHOLD ==> 0 <= t <= SPAWN_THRESHOLD && t == (timer + 1) % SPAWN_PERIOD
    ensures 0 <= timer ==> (t == 0 <==> Spawns(timer))
  {
    if Spawns(timer) then 0 else timer + 1
  }

  /** The obstacle list after the spawn step of a frame. */
  function Spawned(obstacles: seq<Rect>, timer: int, x: SpawnX): seq<Rect> {
    if Spawns(timer) then obstacles + [CreateObstacle(x)] else obstacles
  }

  /** The car hits an obstacle. */
  predicate Crashed(s: Snapshot) {
    CheckCollision(s.car, s.obstacles)
  }

  /**
   * One frame: steer, tick the timer and maybe spawn, move and prune the obstacles, and
   * count the frame in the score unless the car now hits an obstacle.
   */
  function Update(s: Snapshot, input: Input): Snapshot {
    var car := Steer(s.car, input.left, input.right);
    var obstacles := Moved(Spawned(s.obstacles, s.timer, input.spawnX));
    var crashed := CheckCollision(car, obstacles);
    Snapshot(car, obstacles, NextTimer(s.timer), if crashed then s.score else s.score + 1)
  }

  /** Every frame keeps the car on track, the timer in range and every obstacle in flight. */
  lemma UpdatePreservesInv(s: Snapshot, input: Input)
    requires Inv(s)
    ensures Inv(Update(s, input))
  {
    var spawned := Spawned(s.obstacles, s.timer, input.spawnX);
    assert forall p :: p in spawned ==> InFlight(p) || p == CreateObstacle(input.spawnX);
    MovedSpec(spawned);
  }

  /**
   * A frame adds exactly one obstacle, the new one at the end of the list just entering the
   * screen, when the timer spawns, and none otherwise.
   */
  lemma SpawnAddsExactlyOne(s: Snapshot, input: Input)
    ensures Update(s, input).obstacles ==
      if Spawns(s.timer)
      then Moved(s.obstacles) + [Rect(input.spawnX, OBSTACLE_SPEED - OBSTACLE_HEIGHT, OBSTACLE_WIDTH, OBSTACLE_HEIGHT)]
      else Moved(s.obstacles)
  {
    if Spawns(s.timer) {
      MovedAppend(s.obstacles, CreateObstacle(input.spawnX));
    }
  }

  /**
   * The frames of a session in order, stopping at the first frame whose car hits an
   * obstacle; frames counts the frames run, the crashing one included.
   */
  function Play(s: Snapshot, inputs: seq<Input>): Outcome
    decreases |inputs|
  {
    if inputs == [] then Outcome(s, 0, false)
    else
      var next := Update(s, inputs[0]);
      if Crashed(next) then Outcome(next, 1, true)
      else Later(Play(next, inputs[1..]), 1)
  }

  /** An outcome that happened k frames later. */
  function Later(o: Outcome, k: nat): Outcome {
    o.(frames := o.frames + k)
  }

  /**
   * The score counts the frames survived: a run without a crash uses every input and adds
   * one per frame, and a crash ends the run without counting the crashing frame.
   */
  lemma {:induction false} PlayScore(s: Snapshot, inputs: seq<Input>)
    ensures Play(s, inputs).frames <= |inputs|
    ensures !Play(s, inputs).crashed ==> Play(s, inputs).frames == |inputs|
    ensures Play(s, inputs).crashed ==> Play(s, inputs).frames >= 1 && Crashed(Play(s, inputs).last)
    ensures Play(s, inputs).last.score ==
      s.score + Play(s, inputs).frames - (if Play(s, inputs).crashed then 1 else 0)
    decreases |inputs|
  {
    if inputs != [] {
      var next := Update(s, inputs[0]);
      if !Crashed(next) {
        PlayScore(next, inputs[1..]);
      }
    }
  }

  /** The session invariant holds after any run of frames. */
  lemma {:induction false} PlayPreservesInv(s: Snapshot, inputs: seq<Input>)
    requires Inv(s)
    ensures Inv(Play(s, inputs).last)
    decreases |inputs|
  {
    if inputs != [] {
      UpdatePreservesInv(s, inputs[0]);
      if !Crashed(Update(s, inputs[0])) {
        PlayPreservesInv(Update(s, inputs[0]), inputs[1..]);
      }
    }
  }

  /** The timer counts frames modulo the spawn period, so obstacles are spawned every SPAWN_PERIOD frames. */
  lemma {:induction false} PlayTimer(s: Snapshot, inputs: seq<Input>)
    requires 0 <= s.timer <= SPAWN_THRESHOLD
    ensures Play(s, inputs).last.timer == (s.timer + Play(s, inputs).frames) % SPAWN_PERIOD
    decreases |inputs|
  {
    if inputs != [] {
      var next := Update(s, inputs[0]);
      assert next.timer == NextTimer(s.timer);
      if !Crashed(next) {
        PlayTimer(next, inputs[1..]);
        var rest := Play(next, inputs[1..]);
        assert Play(s, inputs) == Later(rest, 1);
        TimerStep(s.timer, rest.frames);
      }
    }
  }

  /** Counting one frame and then f more frames modulo the period is counting f + 1 frames. */
  lemma TimerStep(t: int, f: nat)
    requires 0 <= t <= SPAWN_THRESHOLD
    ensures (NextTimer(t) + f) % SPAWN_PERIOD == (t + 1 + f) % SPAWN_PERIOD
  {
  }

  /** Running a then b is running a, then running b from where a left off, unless a crashed. */
  lemma {:induction false} PlaySplit(s: Snapshot, a: seq<Input>, b: seq<Input>)
    ensures Play(s, a + b) ==
      if Play(s, a).crashed then Play(s, a)
      else Later(Play(Play(s, a).last, b), Play(s, a).frames)
    decreases |a|
  {
    if a == [] {
      assert a + b == b;
    } else {
      assert (a + b)[0] == a[0] && (a + b)[1..] == a[1..] + b;
      var next := Update(s, a[0]);
      if !Crashed(next) {
        PlaySplit(next, a[1..], b);
      }
    }
  }

  /** Before its first spawn a run has no obstacles, so it cannot crash, and the timer counts the frames. */
  lemma {:induction false} QuietFrames(s: Snapshot, inputs: seq<Input>)
    requires s.obstacles == [] && 0 <= s.timer && s.timer + |inputs| <= SPAWN_THRESHOLD
    ensures Play(s, inputs).last.obstacles == []
    ensures !Play(s, inputs).crashed && Play(s, inputs).frames == |inputs|
    ensures Play(s, inputs).last.timer == s.timer + |inputs|
    ensures Play(s, inputs).last.score == s.score + |inputs|
    decreases |inputs|
  {
    if inputs != [] {
      var next := Update(s, inputs[0]);
      assert Shifted([]) == [];
      assert next.obstacles == [] && next.timer == s.timer + 1 && next.score == s.score + 1;
      QuietFrames(next, inputs[1..]);
    }
  }

  /**
   * From the start of a session the first obstacle appears in frame SPAWN_PERIOD, at the
   * column that frame supplies, already moved once; until then the list is empty.
   */
  lemma FirstSpawn(inputs: seq<Input>)
    requires |inputs| == SPAWN_PERIOD
    ensures Play(Start(), inputs[..SPAWN_THRESHOLD]).last.obstacles == []
    ensures !Play(Start(), inputs).crashed
    ensures Play(Start(), inputs).last.obstacles ==
      [Rect(inputs[SPAWN_THRESHOLD].spawnX, OBSTACLE_SPEED - OBSTACLE_HEIGHT, OBSTACLE_WIDTH, OBSTACLE_HEIGHT)]
    ensures Play(Start(), inputs).last.timer == 0 && Play(Start(), inputs).last.score == SPAWN_PERIOD
  {
    var a, b := inputs[..SPAWN_THRESHOLD], inputs[SPAWN_THRESHOLD..];
    assert a + b == inputs;
    QuietFrames(Start(), a);
    PlaySplit(Start(), a, b);
    var mid := Play(Start(), a).last;
    PlayPreservesInv(Start(), a);
    SpawnAddsExactlyOne(mid, b[0]);
    assert Moved([]) == [] by { assert Shifted([]) == []; }
    var next := Update(mid, b[0]);
    assert !CollideRect(next.car, next.obstacles[0]);
    assert b[1..] == [];
  }

  /**
   * An obstacle directly above the car whose bottom edge touches the car's top edge does not
   * collide and the frame is scored; one frame later it overlaps and the session ends with the
   * score unchanged.
   */
  lemma TouchingIsNotACrash(input: Input)
    requires !input.left && !input.right
    ensures var s := Snapshot(Start().car, [Rect(CAR_START_X, CAR_START_Y - OBSTACLE_HEIGHT - OBSTACLE_SPEED, OBSTACLE_WIDTH, OBSTACLE_HEIGHT)], 0, 7);
      var s1 := Update(s, input);
      !Crashed(s1) && s1.score == 8 && Crashed(Update(s1, input)) && Update(s1, input).score == 8
  {
  }

  /**
   * The state game_loop keeps: the car rectangle, the obstacle list, the spawn timer and the
   * score, updated in place frame by frame.
   */
  class Game {
    var car: Rect
    var obstacles: seq<Rect>
    var timer: int
    var score: int

    function Snap(): Snapshot
      reads this
    {
      Snapshot(car, obstacles, timer, score)
    }

    ghost predicate Valid()
      reads this
    {
      Inv(Snap())
    }

    /** The module-level car at its starting place and an empty obstacle list. */
    constructor ()
      ensures Valid() && Snap() == Start()
    {
      car := Rect(CAR_START_X, CAR_START_Y, CAR_WIDTH, CAR_HEIGHT);
      obstacles := [];
      timer, score := 0, 0;
    }

    /** Session start: timer and score zero, car moved back to its starting corner, obstacles cleared. */
    method Reset()
      requires Valid()
      modifies this
      ensures Valid() && Snap() == Start()
    {
      timer := 0;
      score := 0;
      car := car.(x := CAR_START_X, y := CAR_START_Y);
      obstacles := [];
    }

    /** One frame of game_loop; crashed reports whether the session ends with it. */
    method Step(input: Input) returns (crashed: bool)
      requires Valid()
      modifies this
      ensures Valid()
      ensures Snap() == Update(old(Snap()), input)
      ensures crashed == Crashed(Snap())
    {
      ghost var before := Snap();
      ghost var after := Update(before, input);
      if input.left && car.Left() > 0 {
        car := car.(x := car.x - CAR_SPEED);
      }
      if input.right && car.Right() < WIDTH {
        car := car.(x := car.x + CAR_SPEED);
      }
      assert car == after.car;
      timer := timer + 1;
      if timer > SPAWN_THRESHOLD {
        timer := 0;
        obstacles := obstacles + [CreateObstacle(input.spawnX)];
      }
      assert timer == after.timer;
      assert obstacles == Spawned(before.obstacles, before.timer, input.spawnX);
      obstacles := MoveObstacles(obstacles);
      assert obstacles == after.obstacles;
      crashed := CheckCollision(car, obstacles);
      assert crashed == Crashed(after);
      assert after.score == if crashed then before.score else before.score + 1;
      if !crashed {
        score := score + 1;
      }
      assert score == after.score;
      UpdatePreservesInv(before, input);
    }

    /**
     * game_loop over a finite stream of frames: reset, then step until a frame crashes or
     * the inputs run out.
     */
    method Run(inputs: seq<Input>) returns (outcome: Outcome)
      requires Valid()
      modifies this
      ensures Valid()
      ensures outcome == Play(Start(), inputs) && Snap() == outcome.last
    {
      Reset();
      var i := 0;
      while i < |inputs|
        invariant 0 <= i <= |inputs|
        invariant Valid()
        invariant Play(Start(), inputs) == Later(Play(Snap(), inputs[i..]), i)
      {
        assert inputs[i..][1..] == inputs[i + 1..];
        var crashed := Step(inputs[i]);
        i := i + 1;
        if crashed {
          outcome := Outcome(Snap(), i, true);
          return;
        }
      }
      outcome := Outcome(Snap(), i, false);
    }
  }
}
