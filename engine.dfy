/** The game-state engine as values: the state of a run, what one frame does
    to it, the invariant every frame keeps, and the laws of eating, moving,
    crashing and levelling up. The class in module Game is proved against
    the function Frame defined here. */
module Engine {
  import opened Grid
  import opened Controls

  /** Foods per level, points per food, speed gain and obstacles per level. */
  const LevelUpThreshold: int := 5
  const FoodScore: int := 10
  const SpeedStep: int := 2
  const ObstaclesPerLevel: int := 3

  /** The three choices of the start screen. */
  datatype Difficulty = Easy | Medium | Hard

  /** Starting speed in frames per second for each difficulty. */
  function BaseSpeed(level: Difficulty): int {
    match level
    case Easy => 10
    case Medium => 15
    case Hard => 20
  }

  /** Easy, medium and hard start at 10, 15 and 20 frames per second. */
  lemma StartSpeeds()
    ensures BaseSpeed(Easy) == 10 && BaseSpeed(Medium) == 15 && BaseSpeed(Hard) == 20
    ensures BaseSpeed(Easy) < BaseSpeed(Medium) < BaseSpeed(Hard)
  {
  }

  /** The snake starts in the middle of the grid. */
  const Centre := Cell(GridWidth / 2, GridHeight / 2)

  datatype Status = Playing | GameOver

  /** Everything one run keeps between frames. `body` is head first;
      `snakeLength` is the length the body should have. */
  datatype State = State(
    body: seq<Cell>,
    snakeLength: int,
    direction: Direction,
    food: Cell,
    obstacles: seq<Cell>,
    score: int,
    level: int,
    foodsEaten: int,
    speed: int,
    status: Status)

  /** A fresh run: one cell at the centre, not moving, food somewhere else. */
  function Initial(base: int, food: Cell): State {
    State([Centre], 1, Still, food, [], 0, 1, 0, base, Playing)
  }

  predicate Distinct(s: seq<Cell>) {
    forall i, j :: 0 <= i < j < |s| ==> s[i] != s[j]
  }

  predicate AllInBounds(s: seq<Cell>) {
    forall i :: 0 <= i < |s| ==> InBounds(s[i])
  }

  /** Where the cells are: body, obstacles and food on the grid, the body and
      the obstacle list free of repeats, and none of the three overlapping. */
  predicate Layout(s: State) {
    && |s.body| == s.snakeLength >= 1
    && AllInBounds(s.body) && Distinct(s.body)
    && AllInBounds(s.obstacles) && Distinct(s.obstacles)
    && (forall c :: c in s.obstacles ==> c !in s.body)
    && IsFree(s.food, s.body + s.obstacles)
    && IsHeading(s.direction)
  }

  /** Foods eaten since the run started. */
  function Eaten(s: State): int {
    LevelUpThreshold * (s.level - 1) + s.foodsEaten
  }

  /** The counters agree with the number of foods eaten and levels passed. */
  predicate Counters(s: State, base: int) {
    && s.level >= 1
    && s.snakeLength == 1 + Eaten(s)
    && s.score == FoodScore * Eaten(s)
    && |s.obstacles| == ObstaclesPerLevel * (s.level - 1)
    && s.speed == base + SpeedStep * (s.level - 1)
  }

  /** The invariant of every state a run can reach from `Initial(base, _)`. */
  predicate Inv(s: State, base: int) {
    Layout(s) && Counters(s, base) && 0 <= s.foodsEaten < LevelUpThreshold
  }

  function NextHead(head: Cell, d: Direction): Cell {
    Cell(head.x + d.dx, head.y + d.dy)
  }

  /** A fatal cell: off the grid, on the body as it is before the move (its
      last cell included), or on an obstacle. */
  predicate Collides(s: State, h: Cell) {
    !InBounds(h) || h in s.body || h in s.obstacles
  }

  /** What a frame will do once its key events are read. */
  datatype Plan = Halted | Idle | Crash | MoveTo(head: Cell)

  function PlanFrame(s: State, keys: seq<Key>): Plan
    requires s.body != []
  {
    var d := Steer(s.direction, keys);
    if s.status == GameOver then Halted
    else if d == Still then Idle
    else if Collides(s, NextHead(s.body[0], d)) then Crash
    else MoveTo(NextHead(s.body[0], d))
  }

  /** Cells drawn for new food when the head lands on `h`. */
  function FoodDraws(s: State, h: Cell): nat {
    if h == s.food then 1 else 0
  }

  /** Cells drawn for new obstacles once the foods counter is known. */
  function ObstacleDraws(foodsEaten: int): nat {
    if foodsEaten >= LevelUpThreshold then ObstaclesPerLevel else 0
  }

  /** How many random cells a frame draws, in the order it draws them. */
  function DrawsNeeded(s: State, keys: seq<Key>): nat
    requires s.body != []
  {
    match PlanFrame(s, keys)
    case MoveTo(h) => FoodDraws(s, h) + ObstacleDraws(s.foodsEaten + FoodDraws(s, h))
    case _ => 0
  }

  /** Push the new head, then grow and re-place the food when the head is on
      the food, or else drop the tail while the body is too long. */
  function Move(s: State, h: Cell, foodDraw: seq<Cell>): State
    requires |foodDraw| == FoodDraws(s, h)
  {
    var body := [h] + s.body;
    if h == s.food then
      s.(body := body, score := s.score + FoodScore, foodsEaten := s.foodsEaten + 1,
         snakeLength := s.snakeLength + 1, food := foodDraw[0])
    else
      s.(body := if |body| > s.snakeLength then body[..|body| - 1] else body)
  }

  /** After enough foods: next level, faster, and the drawn obstacles added. */
  function LevelUp(s: State, obstacleDraws: seq<Cell>): State
    requires |obstacleDraws| == ObstacleDraws(s.foodsEaten)
  {
    if s.foodsEaten >= LevelUpThreshold then
      s.(level := s.level + 1, foodsEaten := 0, speed := s.speed + SpeedStep,
         obstacles := s.obstacles + obstacleDraws)
    else s
  }

  /** One frame, given its key events and the cells drawn during it. */
  function Frame(s: State, keys: seq<Key>, draws: seq<Cell>): State
    requires s.body != []
    requires |draws| == DrawsNeeded(s, keys)
  {
    var d := Steer(s.direction, keys);
    match PlanFrame(s, keys)
    case Halted => s
    case Idle => s.(direction := d)
    case Crash => s.(direction := d, status := GameOver)
    case MoveTo(h) =>
      var n := FoodDraws(s, h);
      LevelUp(Move(s.(direction := d), h, draws[..n]), draws[n..])
  }

  /** Each obstacle avoids the body, the obstacles so far (those added just
      before it included) and the food. */
  predicate ObstaclesAvoid(s: State, draws: seq<Cell>) {
    forall i :: 0 <= i < |draws| ==> IsFree(draws[i], s.body + s.obstacles + draws[..i] + [s.food])
  }

  /** The drawn cells are the ones the game may pick: new food off the grown
      body and the obstacles, new obstacles as `ObstaclesAvoid` says. */
  predicate LegalDraws(s: State, keys: seq<Key>, draws: seq<Cell>)
    requires s.body != []
    requires |draws| == DrawsNeeded(s, keys)
  {
    match PlanFrame(s, keys)
    case MoveTo(h) =>
      var n := FoodDraws(s, h);
      var moved := Move(s.(direction := Steer(s.direction, keys)), h, draws[..n]);
      (n == 1 ==> IsFree(draws[0], moved.body + moved.obstacles))
      && ObstaclesAvoid(moved, draws[n..])
    case _ => true
  }
}
