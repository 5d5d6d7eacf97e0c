/**
 * Day 11 (src/p11.rs): the hull-painting robot.  It stands on a grid cell
 * facing a direction; each step paints the cell under it, turns a quarter
 * left or right, and moves one cell forward.  Cells never painted are black.
 */
module P11 {

  datatype Turn = Left | Right

  /** `Turn::from`: 0 is a left turn and 1 a right turn; any other code is unreachable. */
  function TurnFrom(code: int): (t: Turn)
    requires code == 0 || code == 1
    ensures t.Left? <==> code == 0
  {
    if code == 0 then Left else Right
  }

  /** `Dir`; its `Left` and `Right` are named `West` and `East` here, apart from the turns. */
  datatype Dir = Up | Down | West | East

  /** The direction's number of quarter turns clockwise from up. */
  function Quarter(d: Dir): (q: nat)
    ensures q < 4
  {
    match d
    case Up => 0
    case East => 1
    case Down => 2
    case West => 3
  }

  /** `Dir::turn`: the direction after a quarter turn. */
  function Turned(d: Dir, t: Turn): Dir
  {
    match (d, t)
    case (Up, Left) => West
    case (Down, Right) => West
    case (Down, Left) => East
    case (Up, Right) => East
    case (West, Left) => Down
    case (East, Right) => Down
    case (East, Left) => Up
    case (West, Right) => Up
  }

  /** A right turn adds one quarter clockwise and a left turn three, so a turn is a rotation of the compass. */
  lemma TurnIsRotation(d: Dir, t: Turn)
    ensures Quarter(Turned(d, t)) == (Quarter(d) + (if t.Right? then 1 else 3)) % 4
  {
  }

  /** Directions are told apart by their quarter count. */
  lemma QuarterInjective(d: Dir, e: Dir)
    requires Quarter(d) == Quarter(e)
    ensures d == e
  {
  }

  /** A left turn then a right turn, or a right turn then a left turn, faces the way it started. */
  lemma TurnBack(d: Dir)
    ensures Turned(Turned(d, Left), Right) == d
    ensures Turned(Turned(d, Right), Left) == d
  {
    TurnIsRotation(d, Left);
    TurnIsRotation(Turned(d, Left), Right);
    QuarterInjective(Turned(Turned(d, Left), Right), d);
    TurnIsRotation(d, Right);
    TurnIsRotation(Turned(d, Right), Left);
    QuarterInjective(Turned(Turned(d, Right), Left), d);
  }

  /** Four equal turns face the way it started. */
  lemma FourTurns(d: Dir, t: Turn)
    ensures Turned(Turned(Turned(Turned(d, t), t), t), t) == d
  {
    var d1 := Turned(d, t);
    var d2 := Turned(d1, t);
    var d3 := Turned(d2, t);
    TurnIsRotation(d, t);
    TurnIsRotation(d1, t);
    TurnIsRotation(d2, t);
    TurnIsRotation(d3, t);
    QuarterInjective(Turned(d3, t), d);
  }

  /** A turn always swaps the vertical and the horizontal, and the two turns from one direction face opposite ways. */
  lemma TurnCrossesAxis(d: Dir)
    ensures (d.Up? || d.Down?) <==> (Turned(d, Left).West? || Turned(d, Left).East?)
    ensures (d.Up? || d.Down?) <==> (Turned(d, Right).West? || Turned(d, Right).East?)
    ensures Quarter(Turned(d, Right)) == (Quarter(Turned(d, Left)) + 2) % 4
  {
  }

  datatype Color = Black | White

  /** The enum's discriminant, `color as i64`: black is 0 and white 1. */
  function ColorCode(c: Color): int
  {
    match c
    case Black => 0
    case White => 1
  }

  /** `Color::from`: the colour whose discriminant is `code`; any other code is unreachable. */
  function ColorFrom(code: int): (c: Color)
    requires code == 0 || code == 1
    ensures ColorCode(c) == code
  {
    if code == 0 then Black else White
  }

  /** A colour survives the trip to its code and back. */
  lemma ColorRoundTrip(c: Color)
    ensures ColorFrom(ColorCode(c)) == c
  {
  }

  /** `Color::neg`: the other colour. */
  function Neg(c: Color): (n: Color)
    ensures n != c
    ensures ColorCode(n) == 1 - ColorCode(c)
  {
    match c
    case Black => White
    case White => Black
  }

  /** Negating twice gives the colour back. */
  lemma NegInvolution(c: Color)
    ensures Neg(Neg(c)) == c
  {
  }

  type Cell = (int, int)

  /** The cell one unit along `d` from `p`: up is towards larger `y`, east towards larger `x`. */
  function Forward(p: Cell, d: Dir): (q: Cell)
    ensures (d.Up? || d.Down?) ==> q.0 == p.0 && (q.1 - p.1 == if d.Up? then 1 else -1)
    ensures (d.West? || d.East?) ==> q.1 == p.1 && (q.0 - p.0 == if d.East? then 1 else -1)
  {
    match d
    case Up => (p.0, p.1 + 1)
    case Down => (p.0, p.1 - 1)
    case West => (p.0 - 1, p.1)
    case East => (p.0 + 1, p.1)
  }

  /** Painting a cell adds it to the painted cells when it was not there, and otherwise keeps their number. */
  lemma PaintCount(visited: map<Cell, Color>, p: Cell, c: Color)
    ensures |visited[p := c]| == |visited| + (if p in visited then 0 else 1)
  {
    if p in visited {
      assert visited[p := c].Keys == visited.Keys;
    } else {
      assert visited[p := c].Keys == visited.Keys + {p};
    }
  }

  /**
   * `Robot`: where it stands, which way it faces, and the colour of every
   * cell it has painted.  `painted` records the cells in the order they were
   * painted; the painted cells are exactly those.
   */
  class Robot {
    var x: int
    var y: int
    var dir: Dir
    var visited: map<Cell, Color>
    ghost var painted: seq<Cell>

    ghost predicate Valid()
      reads this
    {
      visited.Keys == set p | p in painted
    }

    /** `Robot::default`: at the origin, facing up, nothing painted. */
    constructor ()
      ensures x == 0 && y == 0 && dir == Up && visited == map[] && painted == []
      ensures Valid()
    {
      x, y, dir, visited := 0, 0, Up, map[];
      painted := [];
    }

    /** `Robot::color`: the colour painted on the current cell, black where nothing was painted. */
    function ColorHere(): (c: Color)
      reads this
      ensures (x, y) in visited ==> c == visited[(x, y)]
      ensures (x, y) !in visited ==> c == Black
    {
      if (x, y) in visited then visited[(x, y)] else Black
    }

    /** `Robot::step`: paint the current cell `c`, turn by `t`, and move one cell in the new direction. */
    method Step(c: Color, t: Turn)
      requires Valid()
      modifies this
      ensures visited == old(visited)[(old(x), old(y)) := c]
      ensures dir == Turned(old(dir), t)
      ensures (x, y) == Forward((old(x), old(y)), dir)
      ensures painted == old(painted) + [(old(x), old(y))]
      ensures Valid()
    {
      visited := visited[(x, y) := c];
      painted := painted + [(x, y)];
      dir := Turned(dir, t);
      match dir {
        case Up => y := y + 1;
        case Down => y := y - 1;
        case West => x := x - 1;
        case East => x := x + 1;
      }
    }
  }

  /** The unit test: seven steps from the default robot paint six distinct cells, and it ends on an unpainted one. */
  method PaintTest() returns (count: nat, here: Color)
    ensures count == 6
    ensures here == Black
  {
    var r := new Robot();
    assert r.visited.Keys == {};
    TestFirstSteps(r);
    TestMiddleSteps(r);
    TestLastSteps(r);
    count := |r.visited|;
    here := r.ColorHere();
  }

  /** Steps 1 to 3 of the unit test. */
  method TestFirstSteps(r: Robot)
    requires r.Valid() && r.x == 0 && r.y == 0 && r.dir == Up && r.visited == map[]
    modifies r
    ensures r.Valid() && r.x == 0 && r.y == -1 && r.dir == East && r.visited.Keys == {(0, 0), (-1, 0), (-1, -1)} && |r.visited| == 3
  {
    ghost var v: map<Cell, Color>;
    v := r.visited;
    r.Step(White, Left);
    PaintCount(v, (0, 0), White);
    assert r.x == -1 && r.y == 0 && r.dir == West && r.visited.Keys == {(0, 0)} && |r.visited| == 1;
    v := r.visited;
    r.Step(Black, Left);
    PaintCount(v, (-1, 0), Black);
    assert r.x == -1 && r.y == -1 && r.dir == Down && r.visited.Keys == {(0, 0), (-1, 0)} && |r.visited| == 2;
    v := r.visited;
    r.Step(White, Left);
    PaintCount(v, (-1, -1), White);
  }

  /** Steps 4 to 5 of the unit test. */
  method TestMiddleSteps(r: Robot)
    requires r.Valid() && r.x == 0 && r.y == -1 && r.dir == East && r.visited.Keys == {(0, 0), (-1, 0), (-1, -1)} && |r.visited| == 3
    modifies r
    ensures r.Valid() && r.x == 1 && r.y == 0 && r.dir == East && r.visited.Keys == {(0, 0), (-1, 0), (-1, -1), (0, -1)} && |r.visited| == 4
  {
    ghost var v: map<Cell, Color>;
    v := r.visited;
    r.Step(White, Left);
    PaintCount(v, (0, -1), White);
    assert r.x == 0 && r.y == 0 && r.dir == Up && r.visited.Keys == {(0, 0), (-1, 0), (-1, -1), (0, -1)} && |r.visited| == 4;
    v := r.visited;
    r.Step(Black, Right);
    PaintCount(v, (0, 0), Black);
  }

  /** Steps 6 to 7 of the unit test. */
  method TestLastSteps(r: Robot)
    requires r.Valid() && r.x == 1 && r.y == 0 && r.dir == East && r.visited.Keys == {(0, 0), (-1, 0), (-1, -1), (0, -1)} && |r.visited| == 4
    modifies r
    ensures r.Valid() && r.x == 0 && r.y == 1 && r.dir == West && r.visited.Keys == {(0, 0), (-1, 0), (-1, -1), (0, -1), (1, 0), (1, 1)} && |r.visited| == 6
  {
    ghost var v: map<Cell, Color>;
    v := r.visited;
    r.Step(White, Left);
    PaintCount(v, (1, 0), White);
    assert r.x == 1 && r.y == 1 && r.dir == Up && r.visited.Keys == {(0, 0), (-1, 0), (-1, -1), (0, -1), (1, 0)} && |r.visited| == 5;
    v := r.visited;
    r.Step(White, Left);
    PaintCount(v, (1, 1), White);
  }
}
