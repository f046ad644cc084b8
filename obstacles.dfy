/** Creating, moving, pruning and hit-testing the obstacles that scroll down the screen. */
module Obstacles {
  import opened Config
  import opened Rects

  /** The horizontal positions a new obstacle may be given: those of random.randint(0, WIDTH - OBSTACLE_WIDTH). */
  type SpawnX = x: int | 0 <= x <= WIDTH - OBSTACLE_WIDTH

  /** A new obstacle at column x, lying just above the visible area. */
  function CreateObstacle(x: SpawnX): (r: Rect)
    ensures r.w == OBSTACLE_WIDTH && r.h == OBSTACLE_HEIGHT
    ensures r.x == x && 0 <= r.Left() && r.Right() <= WIDTH
    ensures r.Bottom() == 0
  {
    Rect(x, -OBSTACLE_HEIGHT, OBSTACLE_WIDTH, OBSTACLE_HEIGHT)
  }

  /** One frame of downward motion of a single obstacle. */
  function Advance(o: Rect): Rect {
    o.(y := o.y + OBSTACLE_SPEED)
  }

  /** Every obstacle advanced by one frame, in the same order. */
  function Shifted(obs: seq<Rect>): seq<Rect> {
    seq(|obs|, i requires 0 <= i < |obs| => Advance(obs[i]))
  }

  /** The obstacle's top edge is above the bottom of the screen. */
  predicate Visible(o: Rect) {
    o.y < HEIGHT
  }

  /** The obstacle will still be visible after one more frame of motion. */
  predicate SurvivesMove(o: Rect) {
    o.y + OBSTACLE_SPEED < HEIGHT
  }

  /** The elements of s that satisfy keep, in their original order. */
  function Filter(s: seq<Rect>, keep: Rect -> bool): (r: seq<Rect>)
    ensures |r| <= |s|
  {
    if s == [] then []
    else
      var init := Filter(s[..|s| - 1], keep);
      if keep(s[|s| - 1]) then init + [s[|s| - 1]] else init
  }

  /** Filter keeps exactly the elements that pass the test. */
  lemma {:induction false} FilterMembers(s: seq<Rect>, keep: Rect -> bool)
    ensures forall o :: o in Filter(s, keep) <==> o in s && keep(o)
  {
    if s != [] {
      FilterMembers(s[..|s| - 1], keep);
      assert s == s[..|s| - 1] + [s[|s| - 1]];
    }
  }

  /** Filtering commutes with concatenation, so the kept elements keep their relative order. */
  lemma {:induction false} FilterAppend(a: seq<Rect>, b: seq<Rect>, keep: Rect -> bool)
    ensures Filter(a + b, keep) == Filter(a, keep) + Filter(b, keep)
  {
    if b == [] {
      assert a + b == a;
    } else {
      var b' := b[..|b| - 1];
      FilterAppend(a, b', keep);
      assert (a + b)[..|a + b| - 1] == a + b';
      assert b[..|b| - 1] == b';
    }
  }

  /** Specification of move_obstacles: advance every obstacle, then keep the visible ones. */
  function Moved(obs: seq<Rect>): seq<Rect> {
    Filter(Shifted(obs), Visible)
  }

  /** Moving a list with one more obstacle at its end moves the rest and keeps that obstacle iff it survives. */
  lemma MovedAppend(obs: seq<Rect>, last: Rect)
    ensures Moved(obs + [last]) == Moved(obs) + (if SurvivesMove(last) then [Advance(last)] else [])
  {
    var shifted := Shifted(obs + [last]);
    assert shifted[..|shifted| - 1] == Shifted(obs);
  }

  /**
   * The move-then-prune of move_obstacles keeps exactly the obstacles that survive one more
   * frame of motion, each advanced once, in their original order.
   */
  lemma {:induction false} MovedIsShiftedSurvivors(obs: seq<Rect>)
    ensures Moved(obs) == Shifted(Filter(obs, SurvivesMove))
  {
    if obs != [] {
      var init, last := obs[..|obs| - 1], obs[|obs| - 1];
      MovedIsShiftedSurvivors(init);
      assert Shifted(obs)[..|obs| - 1] == Shifted(init);
      var kept := Filter(init, SurvivesMove);
      assert Shifted(kept + [last]) == Shifted(kept) + [Advance(last)];
    }
  }

  /**
   * What one frame of motion leaves in the list: no more obstacles than before, all visible,
   * and exactly the advanced copies of the obstacles that survive the move.
   */
  lemma MovedSpec(obs: seq<Rect>)
    ensures |Moved(obs)| <= |obs|
    ensures forall o :: o in Moved(obs) ==> Visible(o)
    ensures forall o :: o in Moved(obs) <==> exists p :: p in obs && SurvivesMove(p) && o == Advance(p)
  {
    MovedIsShiftedSurvivors(obs);
    var kept := Filter(obs, SurvivesMove);
    FilterMembers(obs, SurvivesMove);
    FilterMembers(Shifted(obs), Visible);
    forall o ensures o in Moved(obs) <==> exists p :: p in obs && SurvivesMove(p) && o == Advance(p) {
      if o in Moved(obs) {
        var i :| 0 <= i < |kept| && Shifted(kept)[i] == o;
        assert kept[i] in kept;
      }
      if p :| p in obs && SurvivesMove(p) && o == Advance(p) {
        assert p in kept;
        var i :| 0 <= i < |kept| && kept[i] == p;
        assert Shifted(kept)[i] == o;
      }
    }
  }

  /**
   * move_obstacles: first every obstacle's y is increased in place, then a new list of
   * the obstacles still on screen is built.
   */
  method MoveObstacles(obstacles: seq<Rect>) returns (kept: seq<Rect>)
    ensures kept == Moved(obstacles)
    ensures kept == Shifted(Filter(obstacles, SurvivesMove))
  {
    var moved := obstacles;
    for i := 0 to |moved|
      invariant |moved| == |obstacles|
      invariant forall j :: 0 <= j < i ==> moved[j] == Advance(obstacles[j])
      invariant forall j :: i <= j < |moved| ==> moved[j] == obstacles[j]
    {
      moved := moved[i := moved[i].(y := moved[i].y + OBSTACLE_SPEED)];
    }
    assert moved == Shifted(obstacles);
    kept := [];
    for i := 0 to |moved|
      invariant kept == Filter(moved[..i], Visible)
    {
      assert moved[..i + 1][..i] == moved[..i];
      if moved[i].y < HEIGHT {
        kept := kept + [moved[i]];
      }
    }
    assert moved[..|moved|] == moved;
    MovedIsShiftedSurvivors(obstacles);
  }

  /** check_collision: some obstacle in the list collides with the car. */
  function CheckCollision(car: Rect, obstacles: seq<Rect>): (r: bool)
    ensures r <==> exists o :: o in obstacles && CollideRect(car, o)
  {
    if obstacles == [] then false
    else CollideRect(car, obstacles[0]) || CheckCollision(car, obstacles[1..])
  }
}
