/** Steering: the heading as a unit vector (or the still vector before the
    first arrow key) and the arrow keys read during one frame. */
module Controls {

  /** A step between cells, as a (column, row) offset. */
  datatype Direction = Direction(dx: int, dy: int)

  /** The heading before any arrow key is accepted. */
  const Still := Direction(0, 0)
  const Up := Direction(0, -1)
  const Down := Direction(0, 1)
  const Left := Direction(-1, 0)
  const Right := Direction(1, 0)

  /** A key press seen by the frame's event loop; every other key, and every
      non-key event, leaves the heading alone. */
  datatype Key = ArrowUp | ArrowDown | ArrowLeft | ArrowRight | OtherKey

  predicate IsArrow(k: Key) {
    !k.OtherKey?
  }

  /** The heading an arrow key asks for. */
  function Arrow(k: Key): Direction
    requires IsArrow(k)
  {
    match k
    case ArrowUp => Up
    case ArrowDown => Down
    case ArrowLeft => Left
    case ArrowRight => Right
  }

  function Opposite(d: Direction): Direction {
    Direction(-d.dx, -d.dy)
  }

  /** The headings the game can be in: still, or one of the four arrows. */
  predicate IsHeading(d: Direction) {
    d == Still || d == Up || d == Down || d == Left || d == Right
  }

  /** One key event: an arrow key is accepted unless it asks for the exact
      reverse of the current heading. */
  function ApplyKey(d: Direction, k: Key): (r: Direction)
    ensures IsArrow(k) && Arrow(k) == Opposite(d) ==> r == d
    ensures IsArrow(k) && Arrow(k) != Opposite(d) ==> r == Arrow(k)
    ensures !IsArrow(k) ==> r == d
  {
    match k
    case ArrowUp => if d != Down then Up else d
    case ArrowDown => if d != Up then Down else d
    case ArrowLeft => if d != Right then Left else d
    case ArrowRight => if d != Left then Right else d
    case OtherKey => d
  }

  /** The heading after all key events of a frame, in order: each event is
      judged against the heading left by the events before it. */
  function Steer(d: Direction, keys: seq<Key>): Direction
    decreases |keys|
  {
    if keys == [] then d
    else ApplyKey(Steer(d, keys[..|keys| - 1]), keys[|keys| - 1])
  }

  /** From the still heading every arrow key is accepted. */
  lemma FirstArrowAccepted(k: Key)
    requires IsArrow(k)
    ensures ApplyKey(Still, k) == Arrow(k)
  {
  }

  /** Once moving, no sequence of key events stops the snake: the heading is
      still after a frame only if it was still before. */
  lemma {:induction false} SteerNeverStops(d: Direction, keys: seq<Key>)
    ensures Steer(d, keys) == Still ==> d == Still
    decreases |keys|
  {
    if keys != [] {
      SteerNeverStops(d, keys[..|keys| - 1]);
    }
  }

  /** Steering keeps the heading still or a unit step. */
  lemma {:induction false} SteerKeepsHeading(d: Direction, keys: seq<Key>)
    requires IsHeading(d)
    ensures IsHeading(Steer(d, keys))
    decreases |keys|
  {
    if keys != [] {
      SteerKeepsHeading(d, keys[..|keys| - 1]);
    }
  }

  /** A frame without arrow keys keeps the heading. */
  lemma {:induction false} SteerWithoutArrows(d: Direction, keys: seq<Key>)
    requires forall i :: 0 <= i < |keys| ==> !IsArrow(keys[i])
    ensures Steer(d, keys) == d
    decreases |keys|
  {
    if keys != [] {
      SteerWithoutArrows(d, keys[..|keys| - 1]);
    }
  }

  /** The reversal guard looks at one event at a time: two arrow keys in the
      same frame can turn a snake heading right to heading left. */
  lemma SameFrameReversal()
    ensures ApplyKey(Right, ArrowLeft) == Right
    ensures Steer(Right, [ArrowUp, ArrowLeft]) == Opposite(Right)
  {
  }
}
