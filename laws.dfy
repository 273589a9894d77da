/** What one frame promises, stated over the function Engine.Frame, and the
    invariant of every run that starts from a fresh game. */
module Laws {
  import opened Grid
  import opened Controls
  import opened Engine

  /** While the heading stays still a frame changes nothing at all. */
  lemma IdleFrameChangesNothing(s: State, keys: seq<Key>, draws: seq<Cell>)
    requires s.body != [] && |draws| == DrawsNeeded(s, keys)
    requires Steer(s.direction, keys) == Still
    ensures Frame(s, keys, draws) == s
  {
  }

  /** Game over is terminal: a frame leaves a finished run as it is. */
  lemma GameOverIsFinal(s: State, keys: seq<Key>, draws: seq<Cell>)
    requires s.body != [] && |draws| == DrawsNeeded(s, keys)
    requires s.status == GameOver
    ensures Frame(s, keys, draws) == s
  {
  }

  /** A moving frame ends the run exactly when the new head is off the grid,
      on the body before the move, or on an obstacle; and then nothing but the
      heading and the status changes, so the score stays. */
  lemma CrashLaw(s: State, keys: seq<Key>, draws: seq<Cell>)
    requires s.body != [] && |draws| == DrawsNeeded(s, keys)
    requires s.status == Playing
    ensures var d := Steer(s.direction, keys);
      Frame(s, keys, draws).status == GameOver
      <==> d != Still && Collides(s, NextHead(s.body[0], d))
    ensures Frame(s, keys, draws).status == GameOver ==>
      Frame(s, keys, draws) == s.(direction := Steer(s.direction, keys), status := GameOver)
  {
  }

  /** The cell the tail is about to leave still counts as body: moving the
      head onto it ends the run. */
  lemma ChasingTailIsFatal(s: State, keys: seq<Key>, draws: seq<Cell>)
    requires s.body != [] && |draws| == DrawsNeeded(s, keys)
    requires s.status == Playing && Steer(s.direction, keys) != Still
    requires NextHead(s.body[0], Steer(s.direction, keys)) == s.body[|s.body| - 1]
    ensures Frame(s, keys, draws).status == GameOver
  {
  }

  /** A one-cell snake at the left edge heading left leaves the grid: game
      over, score unchanged. */
  lemma WallScenario()
    ensures var s := State([Cell(0, 5)], 1, Left, Cell(3, 3), [], 0, 1, 0, 10, Playing);
      DrawsNeeded(s, []) == 0 && Frame(s, [], []) == s.(status := GameOver)
  {
    var s := State([Cell(0, 5)], 1, Left, Cell(3, 3), [], 0, 1, 0, 10, Playing);
    assert Steer(Left, []) == Left;
    assert NextHead(Cell(0, 5), Left) == Cell(-1, 5);
    assert PlanFrame(s, []) == Crash;
  }

  /** A three-cell snake heading up into an obstacle: game over, body as it
      was. */
  lemma ObstacleScenario()
    ensures var s := State([Cell(5, 5), Cell(5, 6), Cell(5, 7)], 3, Up, Cell(9, 9),
                           [Cell(5, 4)], 20, 1, 2, 10, Playing);
      DrawsNeeded(s, [ArrowUp]) == 0 && Frame(s, [ArrowUp], []) == s.(status := GameOver)
  {
  }

  /** Eating: ten points, one more food counted (or the counter reset by the
      level-up it completes), the head pushed and the tail kept, and the new
      food on a cell that neither the snake nor any obstacle covers. */
  lemma EatingLaw(s: State, keys: seq<Key>, draws: seq<Cell>)
    requires s.body != [] && |draws| == DrawsNeeded(s, keys)
    requires PlanFrame(s, keys).MoveTo? && PlanFrame(s, keys).head == s.food
    ensures var r := Frame(s, keys, draws);
      && r.score == s.score + FoodScore
      && r.body == [s.food] + s.body
      && |r.body| == |s.body| + 1
      && r.snakeLength == s.snakeLength + 1
      && r.foodsEaten == (if s.foodsEaten + 1 >= LevelUpThreshold then 0 else s.foodsEaten + 1)
      && r.status == Playing
    ensures LegalDraws(s, keys, draws) ==>
      var r := Frame(s, keys, draws); IsFree(r.food, r.body + r.obstacles)
  {
  }

  /** Moving without eating: the new head in front of the old body minus its
      last cell, so the length, the score and the food stay the same. */
  lemma SlidingLaw(s: State, keys: seq<Key>, draws: seq<Cell>)
    requires s.body != [] && |draws| == DrawsNeeded(s, keys)
    requires |s.body| == s.snakeLength
    requires PlanFrame(s, keys).MoveTo? && PlanFrame(s, keys).head != s.food
    ensures var r := Frame(s, keys, draws);
      && r.body == [PlanFrame(s, keys).head] + s.body[..|s.body| - 1]
      && |r.body| == |s.body| == r.snakeLength
      && r.score == s.score && r.food == s.food
  {
  }

  /** Levelling up: when the foods counter reaches five the level rises by
      one, the counter restarts, the speed rises by two and exactly three
      obstacles are appended, each avoiding the snake, the food and every
      obstacle before it, those of the same level-up included. */
  lemma LevelUpLaw(s: State, keys: seq<Key>, draws: seq<Cell>)
    requires s.body != [] && |draws| == DrawsNeeded(s, keys)
    requires PlanFrame(s, keys).MoveTo?
    requires s.foodsEaten + FoodDraws(s, PlanFrame(s, keys).head) >= LevelUpThreshold
    ensures var r := Frame(s, keys, draws);
      && r.level == s.level + 1
      && r.foodsEaten == 0
      && r.speed == s.speed + SpeedStep
      && |r.obstacles| == |s.obstacles| + ObstaclesPerLevel
      && r.obstacles[..|s.obstacles|] == s.obstacles
    ensures LegalDraws(s, keys, draws) ==>
      var r := Frame(s, keys, draws);
      forall i :: |s.obstacles| <= i < |r.obstacles| ==>
        IsFree(r.obstacles[i], r.body + r.obstacles[..i] + [r.food])
  {
  }

  /** Below the threshold the level, the speed and the obstacles stay. */
  lemma NoLevelUpLaw(s: State, keys: seq<Key>, draws: seq<Cell>)
    requires s.body != [] && |draws| == DrawsNeeded(s, keys)
    requires PlanFrame(s, keys).MoveTo?
    requires s.foodsEaten + FoodDraws(s, PlanFrame(s, keys).head) < LevelUpThreshold
    ensures var r := Frame(s, keys, draws);
      && r.level == s.level && r.speed == s.speed && r.obstacles == s.obstacles
      && r.foodsEaten == s.foodsEaten + FoodDraws(s, PlanFrame(s, keys).head)
  {
  }

  /** Obstacles are never removed: the old list is a prefix of the new one. */
  lemma ObstaclesNeverRemoved(s: State, keys: seq<Key>, draws: seq<Cell>)
    requires s.body != [] && |draws| == DrawsNeeded(s, keys)
    ensures var r := Frame(s, keys, draws);
      |s.obstacles| <= |r.obstacles| && r.obstacles[..|s.obstacles|] == s.obstacles
  {
  }

  /** Pushing a head the checks let through keeps the layout. */
  lemma MoveKeepsLayout(s: State, h: Cell, foodDraw: seq<Cell>)
    requires Layout(s) && InBounds(h) && h !in s.body && h !in s.obstacles
    requires |foodDraw| == FoodDraws(s, h)
    requires h == s.food ==> IsFree(foodDraw[0], Move(s, h, foodDraw).body + s.obstacles)
    ensures Layout(Move(s, h, foodDraw))
  {
  }

  /** One more obstacle drawn clear of everything placed so far keeps the
      placement rule of a level-up. */
  lemma AvoidExtend(s: State, draws: seq<Cell>, c: Cell)
    requires ObstaclesAvoid(s, draws)
    requires IsFree(c, s.body + s.obstacles + draws + [s.food])
    ensures ObstaclesAvoid(s, draws + [c])
  {
  }

  /** Appending obstacles that avoid everything keeps the layout. */
  lemma LevelUpKeepsLayout(m: State, draws: seq<Cell>)
    requires Layout(m) && |draws| == ObstacleDraws(m.foodsEaten)
    requires ObstaclesAvoid(m, draws)
    ensures Layout(LevelUp(m, draws))
  {
  }

  /** Every frame keeps the invariant, whatever keys it reads and whatever
      legal cells it draws. */
  lemma FrameKeepsInv(s: State, base: int, keys: seq<Key>, draws: seq<Cell>)
    requires Inv(s, base) && |draws| == DrawsNeeded(s, keys)
    requires LegalDraws(s, keys, draws)
    ensures Inv(Frame(s, keys, draws), base)
  {
    var d := Steer(s.direction, keys);
    SteerKeepsHeading(s.direction, keys);
    match PlanFrame(s, keys)
    case Halted =>
    case Idle =>
    case Crash =>
    case MoveTo(h) =>
      var n := FoodDraws(s, h);
      var s' := s.(direction := d);
      var moved := Move(s', h, draws[..n]);
      MoveKeepsLayout(s', h, draws[..n]);
      LevelUpKeepsLayout(moved, draws[n..]);
  }

  /** A fresh run satisfies the invariant. */
  lemma InitialInv(base: int, food: Cell)
    requires IsFree(food, [Centre])
    ensures Inv(Initial(base, food), base)
  {
  }

  /** A run: a fresh game followed by frames, each with the cells it drew. */
  predicate IsRun(base: int, states: seq<State>, keys: seq<seq<Key>>, draws: seq<seq<Cell>>) {
    && |states| == |keys| + 1 && |draws| == |keys|
    && states[0].body == [Centre] && IsFree(states[0].food, [Centre])
    && states[0] == Initial(base, states[0].food)
    && forall i :: 0 <= i < |keys| ==>
         && states[i].body != []
         && |draws[i]| == DrawsNeeded(states[i], keys[i])
         && LegalDraws(states[i], keys[i], draws[i])
         && states[i + 1] == Frame(states[i], keys[i], draws[i])
  }

  /** Every state of a run keeps the invariant. */
  lemma {:induction false} RunKeepsInv(base: int, states: seq<State>, keys: seq<seq<Key>>, draws: seq<seq<Cell>>, i: nat)
    requires IsRun(base, states, keys, draws) && i < |states|
    ensures Inv(states[i], base)
  {
    if i == 0 {
      InitialInv(base, states[0].food);
    } else {
      RunKeepsInv(base, states, keys, draws, i - 1);
      FrameKeepsInv(states[i - 1], base, keys[i - 1], draws[i - 1]);
    }
  }

  /** In every state of a run the body cells are distinct and on the grid,
      the length agrees with the bookkeeping, the food is free, and score,
      obstacle count and speed follow from the foods eaten and the level. */
  lemma ReachableStatesAreSound(base: int, states: seq<State>, keys: seq<seq<Key>>, draws: seq<seq<Cell>>, i: nat)
    requires IsRun(base, states, keys, draws) && i < |states|
    ensures Distinct(states[i].body) && AllInBounds(states[i].body)
    ensures |states[i].body| == states[i].snakeLength
    ensures IsFree(states[i].food, states[i].body + states[i].obstacles)
    ensures states[i].score == FoodScore * (states[i].snakeLength - 1)
    ensures |states[i].obstacles| == ObstaclesPerLevel * (states[i].level - 1)
    ensures states[i].speed == base + SpeedStep * (states[i].level - 1)
  {
    RunKeepsInv(base, states, keys, draws, i);
  }
}
