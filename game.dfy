/** The running game: the local state of the main loop as the fields of an
    object, updated in place frame by frame. */
module Game {
  import opened Grid
  import opened Controls
  import opened Engine
  import opened Laws

  class SnakeGame {
    var body: seq<Cell>
    var snakeLength: int
    var direction: Direction
    var food: Cell
    var obstacles: seq<Cell>
    var score: int
    var level: int
    var foodsEaten: int
    var speed: int
    var status: Status
    /** The starting speed chosen on the start screen. */
    const baseSpeed: int

    ghost function Snapshot(): State
      reads this
    {
      State(body, snakeLength, direction, food, obstacles, score, level, foodsEaten, speed, status)
    }

    ghost predicate Valid()
      reads this
    {
      Inv(Snapshot(), baseSpeed)
    }

    /** A new run at the chosen difficulty: one segment at the centre, not
        moving, food on any other cell, no obstacles. */
    constructor (difficulty: Difficulty)
      ensures Valid()
      ensures baseSpeed == BaseSpeed(difficulty)
      ensures IsFree(food, [Centre]) && Snapshot() == Initial(baseSpeed, food)
    {
      var start := [Centre];
      RoomMeansFreeCell(start);
      var firstFood := RandomPosition(start);
      baseSpeed := BaseSpeed(difficulty);
      body := start;
      direction := Still;
      snakeLength := 1;
      score := 0;
      level := 1;
      food := firstFood;
      obstacles := [];
      foodsEaten := 0;
      speed := BaseSpeed(difficulty);
      status := Playing;
      new;
      InitialInv(baseSpeed, food);
    }

    /** One frame of the main loop. `draws` are the random cells picked
        during the frame, in the order the game picks them. */
    method Tick(keys: seq<Key>) returns (ghost draws: seq<Cell>)
      requires Valid() && |body| + |obstacles| + DrawsNeeded(Snapshot(), keys) < GridWidth * GridHeight
      modifies this
      ensures Valid()
      ensures |draws| == DrawsNeeded(old(Snapshot()), keys)
      ensures LegalDraws(old(Snapshot()), keys, draws)
      ensures Snapshot() == Frame(old(Snapshot()), keys, draws)
    {
      draws := [];
      if status == GameOver {
        return;
      }
      ghost var s := Snapshot();
      ReadKeys(keys);
      if direction == Still {
        FrameKeepsInv(s, baseSpeed, keys, draws);
        return;
      }

      var newHead := NextHead(body[0], direction);
      if newHead.x < 0 || newHead.x >= GridWidth || newHead.y < 0 || newHead.y >= GridHeight {
        status := GameOver;
        FrameKeepsInv(s, baseSpeed, keys, draws);
        return;
      }
      if newHead in body {
        status := GameOver;
        FrameKeepsInv(s, baseSpeed, keys, draws);
        return;
      }
      if newHead in obstacles {
        status := GameOver;
        FrameKeepsInv(s, baseSpeed, keys, draws);
        return;
      }

      var foodDraw := Advance(newHead);
      ghost var moved := Snapshot();
      var obstacleDraws := LevelUpIfDue();
      draws := foodDraw + obstacleDraws;
      assert draws[..|foodDraw|] == foodDraw && draws[|foodDraw|..] == obstacleDraws;
      FrameKeepsInv(s, baseSpeed, keys, draws);
    }

    /** The frame's key events, in the order they arrived. */
    method ReadKeys(keys: seq<Key>)
      modifies this`direction
      ensures direction == Steer(old(direction), keys)
    {
      ghost var start := direction;
      for i := 0 to |keys|
        invariant direction == Steer(start, keys[..i])
      {
        assert keys[..i + 1][..i] == keys[..i];
        direction := ApplyKey(direction, keys[i]);
      }
      assert keys[..|keys|] == keys;
    }

    /** Push the new head; eat and re-place the food, or drop the tail.
        `foodDraw` holds the new food cell when one was drawn. */
    method Advance(newHead: Cell) returns (ghost foodDraw: seq<Cell>)
      requires newHead == food ==> |body| + |obstacles| + 1 < GridWidth * GridHeight
      modifies this`body, this`score, this`foodsEaten, this`snakeLength, this`food
      ensures |foodDraw| == FoodDraws(old(Snapshot()), newHead)
      ensures Snapshot() == Move(old(Snapshot()), newHead, foodDraw)
      ensures foodDraw != [] ==> IsFree(foodDraw[0], body + obstacles)
    {
      foodDraw := [];
      body := [newHead] + body;
      if newHead == food {
        score := score + FoodScore;
        foodsEaten := foodsEaten + 1;
        snakeLength := snakeLength + 1;
        RoomMeansFreeCell(body + obstacles);
        food := RandomPosition(body + obstacles);
        foodDraw := [food];
      } else if |body| > snakeLength {
        body := body[..|body| - 1];
      }
    }

    /** After enough foods: next level, faster, and three new obstacles, each
        drawn clear of the snake, the obstacles so far and the food. */
    method LevelUpIfDue() returns (ghost obstacleDraws: seq<Cell>)
      requires foodsEaten >= LevelUpThreshold ==> |body| + |obstacles| + ObstaclesPerLevel < GridWidth * GridHeight
      modifies this`level, this`foodsEaten, this`speed, this`obstacles
      ensures |obstacleDraws| == ObstacleDraws(old(foodsEaten))
      ensures Snapshot() == LevelUp(old(Snapshot()), obstacleDraws)
      ensures ObstaclesAvoid(old(Snapshot()), obstacleDraws)
    {
      obstacleDraws := [];
      if foodsEaten >= LevelUpThreshold {
        level := level + 1;
        foodsEaten := 0;
        speed := speed + SpeedStep;
        ghost var before := old(Snapshot());
        for k := 0 to ObstaclesPerLevel
          invariant |obstacleDraws| == k
          invariant level == before.level + 1 && speed == before.speed + SpeedStep && foodsEaten == 0
          invariant obstacles == before.obstacles + obstacleDraws
          invariant ObstaclesAvoid(before, obstacleDraws)
        {
          RoomMeansFreeCell(body + obstacles + [food]);
          var obstacle := RandomPosition(body + obstacles + [food]);
          AvoidExtend(before, obstacleDraws, obstacle);
          obstacles := obstacles + [obstacle];
          obstacleDraws := obstacleDraws + [obstacle];
        }
      }
    }
  }
}
