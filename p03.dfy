/**
 * Day 3 (src/p03.rs): two wires laid out on a grid from the origin, a path of
 * (direction, length) moves each.  A wire visits every grid point of every
 * move, one unit step at a time; the puzzle asks for the crossing nearest the
 * origin, and for the crossing reached in the fewest combined steps.
 * Coordinates are `i64` in the source and unbounded integers here.
 */
module P03 {
  import opened Wrappers
  import opened Text

  type Point = (int, int)

  function Abs(x: int): nat
  {
    if x < 0 then -x else x
  }

  /** `dist`: the Manhattan norm of a point. */
  function Dist(p: Point): (d: nat)
    ensures d == 0 <==> p == (0, 0)
    ensures d == Abs(p.0) + Abs(p.1)
  {
    Abs(p.0) + Abs(p.1)
  }

  /** The Manhattan distance between two points. */
  function Gap(a: Point, b: Point): nat
  {
    Abs(a.0 - b.0) + Abs(a.1 - b.1)
  }

  datatype Dir = Up | Down | Left | Right

  /** `Dir::go`: `amt` units along one axis; the other coordinate stays. */
  function Go(d: Dir, loc: Point, amt: nat): (p: Point)
    ensures Gap(loc, p) == amt
    ensures d.Up? || d.Down? ==> p.0 == loc.0
    ensures d.Left? || d.Right? ==> p.1 == loc.1
  {
    match d
    case Up => (loc.0, loc.1 + amt)
    case Down => (loc.0, loc.1 - amt)
    case Left => (loc.0 - amt, loc.1)
    case Right => (loc.0 + amt, loc.1)
  }

  datatype Wire = Wire(path: seq<(Dir, nat)>)

  // ---------------------------------------------------------------------------
  // Parsing
  // ---------------------------------------------------------------------------

  /** The direction a letter names, if any. */
  function DirOf(c: char): (r: Option<Dir>)
    ensures r.Some? <==> c in {'U', 'D', 'L', 'R'}
  {
    if c == 'U' then Some(Up)
    else if c == 'D' then Some(Down)
    else if c == 'L' then Some(Left)
    else if c == 'R' then Some(Right)
    else None
  }

  /** One move such as `R75`: a direction letter, then a `u64`. */
  function ParseMove(t: string): (r: Result<(Dir, nat), string>)
    ensures r.Err? ==> r.error == "Invalid dir" || r.error == "Invalid amount"
    ensures r.Err? && r.error == "Invalid dir" <==> |t| == 0 || DirOf(t[0]).None?
    ensures r.Ok? <==> |t| > 0 && DirOf(t[0]).Some? && ParseU64(t[1..]).Some?
    ensures r.Ok? ==> r.value == (DirOf(t[0]).value, ParseU64(t[1..]).value)
  {
    if |t| == 0 || DirOf(t[0]).None? then Err("Invalid dir")
    else match ParseU64(t[1..])
      case None => Err("Invalid amount")
      case Some(amt) => Ok((DirOf(t[0]).value, amt))
  }

  /** The moves of the tokens in order, or the error of the first one that fails. */
  function ParseMoves(ts: seq<string>): (r: Result<seq<(Dir, nat)>, string>)
    ensures r.Ok? ==> |r.value| == |ts|
  {
    if |ts| == 0 then Ok([])
    else match ParseMove(ts[0])
      case Err(e) => Err(e)
      case Ok(m) =>
        match ParseMoves(ts[1..])
        case Err(e) => Err(e)
        case Ok(ms) => Ok([m] + ms)
  }

  /** `Wire::from_str`: trim, split at commas, parse every move. */
  function ParseWire(s: string): Result<Wire, string>
  {
    match ParseMoves(Split(Trim(s), ','))
    case Err(e) => Err(e)
    case Ok(ms) => Ok(Wire(ms))
  }

  function DirChar(d: Dir): (c: char)
    ensures DirOf(c) == Some(d)
  {
    match d
    case Up => 'U'
    case Down => 'D'
    case Left => 'L'
    case Right => 'R'
  }

  /** The text of a move. */
  function MoveText(m: (Dir, nat)): string
  {
    [DirChar(m.0)] + NatToString(m.1)
  }

  /** The texts of the moves of a path. */
  function MovesText(path: seq<(Dir, nat)>): (ts: seq<string>)
    ensures |ts| == |path|
  {
    if |path| == 0 then [] else [MoveText(path[0])] + MovesText(path[1..])
  }

  lemma {:induction false} MovesTextAt(path: seq<(Dir, nat)>, i: nat)
    requires i < |path|
    ensures MovesText(path)[i] == MoveText(path[i])
    decreases i
  {
    if i > 0 {
      MovesTextAt(path[1..], i - 1);
    }
  }

  lemma {:induction false} ParseMovesOfText(path: seq<(Dir, nat)>)
    requires forall i :: 0 <= i < |path| ==> path[i].1 <= U64_MAX
    ensures ParseMoves(MovesText(path)) == Ok(path)
    decreases |path|
  {
    if |path| > 0 {
      var t := MoveText(path[0]);
      assert t[1..] == NatToString(path[0].1);
      ParseU64OfToString(path[0].1);
      assert ParseMove(t) == Ok(path[0]);
      ParseMovesOfText(path[1..]);
      assert MovesText(path)[1..] == MovesText(path[1..]);
      assert [path[0]] + path[1..] == path;
    }
  }

  /** Every non-empty path in `u64` range survives printing as `U7,R6,…` and parsing. */
  lemma ParseWireOfText(w: Wire)
    requires |w.path| > 0
    requires forall i :: 0 <= i < |w.path| ==> w.path[i].1 <= U64_MAX
    ensures ParseWire(Join(MovesText(w.path), ',')) == Ok(w)
  {
    var ts := MovesText(w.path);
    forall i | 0 <= i < |ts|
      ensures ',' !in ts[i] && |ts[i]| > 0
      ensures !IsWhitespace(ts[i][0]) && !IsWhitespace(ts[i][|ts[i]| - 1])
    {
      MovesTextAt(w.path, i);
      var d := NatToString(w.path[i].1);
      assert ts[i] == [DirChar(w.path[i].0)] + d;
      assert forall j :: 1 <= j < |ts[i]| ==> ts[i][j] == d[j - 1];
    }
    var s := Join(ts, ',');
    JoinEnds(ts, ',');
    TrimNoop(s);
    SplitJoin(ts, ',');
    ParseMovesOfText(w.path);
  }

  /** Empty text has no direction letter. */
  lemma ParseEmpty()
    ensures ParseWire("") == Err("Invalid dir")
  {
    assert Trim("") == "";
    assert Split("", ',') == [""];
  }

  /** Parsing the moves stops at the first token that fails, with its error. */
  lemma {:induction false} ParseMovesFirstError(ts: seq<string>, i: nat)
    requires i < |ts| && ParseMove(ts[i]).Err?
    requires forall j :: 0 <= j < i ==> ParseMove(ts[j]).Ok?
    ensures ParseMoves(ts) == Err(ParseMove(ts[i]).error)
    decreases i
  {
    if i > 0 {
      ParseMovesFirstError(ts[1..], i - 1);
    }
  }

  /** When every token parses, the moves are those of the tokens, in order. */
  lemma {:induction false} ParseMovesAllOk(ts: seq<string>)
    requires forall j :: 0 <= j < |ts| ==> ParseMove(ts[j]).Ok?
    ensures ParseMoves(ts).Ok?
    ensures forall j :: 0 <= j < |ts| ==> ParseMoves(ts).value[j] == ParseMove(ts[j]).value
    decreases |ts|
  {
    if |ts| > 0 {
      ParseMovesAllOk(ts[1..]);
    }
  }

  lemma SplitTwoMoves()
    ensures Split("R8,X5", ',') == ["R8", "X5"]
  {
    assert "R8,X5" == "R8" + [','] + "X5";
    SplitPiece("R8", ',', "X5");
    SplitNoSep("X5", ',');
  }

  lemma ParseOneMove()
    ensures ParseMove("R8") == Ok((Right, 8))
  {
    ParseU64OfToString(8);
    assert "R8"[1..] == NatToString(8);
  }

  lemma SecondMoveFails()
    ensures ParseMoves(["R8", "X5"]) == Err("Invalid dir")
  {
    ParseOneMove();
    assert ParseMoves(["X5"]) == Err("Invalid dir");
    assert ["R8", "X5"][1..] == ["X5"];
  }

  /** A token whose first letter is no direction fails with "Invalid dir", after the moves before it parse. */
  lemma ParseBadDir()
    ensures ParseWire("R8,X5") == Err("Invalid dir")
  {
    TrimNoop("R8,X5");
    SplitTwoMoves();
    SecondMoveFails();
  }

  /** A direction letter without a number after it fails with "Invalid amount". */
  lemma ParseBadAmount()
    ensures ParseWire("U") == Err("Invalid amount")
  {
    assert Trim("U") == "U" by { TrimNoop("U"); }
    assert Split("U", ',') == ["U"] by { SplitNoSep("U", ','); }
    assert ParseMoves(["U"]) == Err("Invalid amount") by {
      assert ParseU64("U"[1..]) == None;
      assert ParseMove("U") == Err("Invalid amount");
    }
  }

  /** A signed amount is no `u64`. */
  lemma ParseSignedAmount()
    ensures ParseWire("R-8") == Err("Invalid amount")
  {
    assert Trim("R-8") == "R-8" by { TrimNoop("R-8"); }
    assert Split("R-8", ',') == ["R-8"] by { SplitNoSep("R-8", ','); }
    assert ParseMoves(["R-8"]) == Err("Invalid amount") by {
      assert ParseU64("R-8"[1..]) == None;
      assert ParseMove("R-8") == Err("Invalid amount");
    }
  }

  // ---------------------------------------------------------------------------
  // Walking a segment
  // ---------------------------------------------------------------------------

  /** One call of `Segment::next` on the segment from `a` to `b`: the next point, its x coordinate first. */
  function Advance(a: Point, b: Point): (r: Option<Point>)
    ensures r.None? <==> a == b
    ensures r.Some? ==> Gap(a, r.value) == 1 && Gap(r.value, b) + 1 == Gap(a, b)
    ensures r.Some? && a.0 == b.0 ==> r.value.0 == a.0
    ensures r.Some? && a.1 == b.1 ==> r.value.1 == a.1
  {
    if a.0 < b.0 then Some((a.0 + 1, a.1))
    else if a.0 > b.0 then Some((a.0 - 1, a.1))
    else if a.1 < b.1 then Some((a.0, a.1 + 1))
    else if a.1 > b.1 then Some((a.0, a.1 - 1))
    else None
  }

  /** All the points the iterator yields, in order. */
  function Walk(a: Point, b: Point): seq<Point>
    decreases Gap(a, b)
  {
    match Advance(a, b)
    case None => []
    case Some(p) => [p] + Walk(p, b)
  }

  /**
   * A segment yields exactly as many points as its length, the `i`-th of them
   * `i + 1` unit steps nearer the start, each one step from the last, never
   * the start, always the end last, and off neither axis the ends share.
   */
  lemma {:induction false} WalkShape(a: Point, b: Point)
    ensures |Walk(a, b)| == Gap(a, b)
    ensures forall i :: 0 <= i < |Walk(a, b)| ==> Gap(Walk(a, b)[i], b) == Gap(a, b) - (i + 1)
    ensures |Walk(a, b)| > 0 ==> Gap(a, Walk(a, b)[0]) == 1 && Walk(a, b)[|Walk(a, b)| - 1] == b
    ensures forall i :: 0 <= i < |Walk(a, b)| - 1 ==> Gap(Walk(a, b)[i], Walk(a, b)[i + 1]) == 1
    ensures a !in Walk(a, b)
    ensures a.0 == b.0 ==> forall i :: 0 <= i < |Walk(a, b)| ==> Walk(a, b)[i].0 == a.0
    ensures a.1 == b.1 ==> forall i :: 0 <= i < |Walk(a, b)| ==> Walk(a, b)[i].1 == a.1
    decreases Gap(a, b)
  {
    match Advance(a, b)
    case None =>
    case Some(p) =>
      WalkShape(p, b);
      var w := Walk(a, b);
      assert w == [p] + Walk(p, b);
      assert forall i :: 1 <= i < |w| ==> w[i] == Walk(p, b)[i - 1];
      if |Walk(p, b)| > 0 {
        assert w[|w| - 1] == Walk(p, b)[|Walk(p, b)| - 1];
      } else {
        assert p == b;
      }
      assert forall i :: 0 <= i < |w| ==> Gap(w[i], b) < Gap(a, b);
  }

  /** The segment of a move yields exactly the points 1, 2, …, `amt` units along it. */
  lemma {:induction false} WalkGo(d: Dir, loc: Point, amt: nat)
    ensures Walk(loc, Go(d, loc, amt)) == Stretch(d, loc, amt)
    decreases amt
  {
    if amt > 0 {
      var next := Go(d, loc, 1);
      var end := Go(d, loc, amt);
      assert Advance(loc, end) == Some(next);
      assert Go(d, next, amt - 1) == end;
      WalkGo(d, next, amt - 1);
      StretchShift(d, loc, amt);
    }
  }

  /** A stretch is its first point followed by the stretch one unit shorter from there. */
  lemma StretchShift(d: Dir, loc: Point, amt: nat)
    requires amt > 0
    ensures Stretch(d, loc, amt) == [Go(d, loc, 1)] + Stretch(d, Go(d, loc, 1), amt - 1)
  {
    var next := Go(d, loc, 1);
    var rest := Stretch(d, next, amt - 1);
    forall i | 0 <= i < amt
      ensures Stretch(d, loc, amt)[i] == ([next] + rest)[i]
    {
      if i > 0 {
        assert rest[i - 1] == Go(d, next, i);
      }
    }
  }

  /** `p` lies on the move from `loc`: on its axis, past `loc`, at most `amt` units along. */
  predicate OnMove(d: Dir, loc: Point, amt: nat, p: Point)
  {
    match d
    case Up => p.0 == loc.0 && loc.1 < p.1 <= loc.1 + amt
    case Down => p.0 == loc.0 && loc.1 - amt <= p.1 < loc.1
    case Left => p.1 == loc.1 && loc.0 - amt <= p.0 < loc.0
    case Right => p.1 == loc.1 && loc.0 < p.0 <= loc.0 + amt
  }

  /** The points a move's segment yields are exactly the grid points of the move after its start. */
  lemma InWalkGo(d: Dir, loc: Point, amt: nat, p: Point)
    ensures p in Walk(loc, Go(d, loc, amt)) <==> OnMove(d, loc, amt, p)
  {
    WalkGo(d, loc, amt);
    InStretch(d, loc, amt, p);
  }

  /** The points of a stretch are the grid points of the move after its start. */
  lemma InStretch(d: Dir, loc: Point, amt: nat, p: Point)
    ensures p in Stretch(d, loc, amt) <==> OnMove(d, loc, amt, p)
  {
    var w := Stretch(d, loc, amt);
    if OnMove(d, loc, amt, p) {
      var k: int := match d
        case Up => p.1 - loc.1
        case Down => loc.1 - p.1
        case Left => loc.0 - p.0
        case Right => p.0 - loc.0;
      assert w[k - 1] == p;
    }
  }

  /** A point is among a chain of segments' points exactly when it is among one segment's. */
  lemma {:induction false} InFlatten(segs: seq<(Point, Point)>, p: Point)
    ensures p in Flatten(segs) <==> exists i :: 0 <= i < |segs| && p in Walk(segs[i].0, segs[i].1)
    decreases |segs|
  {
    if |segs| > 0 {
      InFlatten(segs[1..], p);
      assert forall i :: 0 < i < |segs| ==> segs[i] == segs[1..][i - 1];
      if p in Flatten(segs[1..]) {
        var i :| 0 <= i < |segs| - 1 && p in Walk(segs[1..][i].0, segs[1..][i].1);
        assert p in Walk(segs[i + 1].0, segs[i + 1].1);
      }
    }
  }

  /** The `Segment` iterator: a current point that walks towards a fixed end. */
  class Segment {
    var at: Point
    var end: Point

    constructor (a: Point, b: Point)
      ensures at == a && end == b
    {
      at := a;
      end := b;
    }

    /** `Iterator::next`: one unit step along x, or else along y, or `None` at the end. */
    method Next() returns (r: Option<Point>)
      modifies this
      ensures r == Advance(old(at), old(end))
      ensures at == (if r.Some? then r.value else old(at)) && end == old(end)
    {
      if at.0 < end.0 {
        at := (at.0 + 1, at.1);
      } else if at.0 > end.0 {
        at := (at.0 - 1, at.1);
      } else if at.1 < end.1 {
        at := (at.0, at.1 + 1);
      } else if at.1 > end.1 {
        at := (at.0, at.1 - 1);
      } else {
        return None;
      }
      r := Some(at);
    }

    /** Draining the iterator: every point it yields, after which it stands at its end. */
    method Collect() returns (ps: seq<Point>)
      modifies this
      ensures ps == Walk(old(at), old(end))
      ensures at == end == old(end)
    {
      ps := [];
      while true
        invariant end == old(end)
        invariant ps + Walk(at, end) == Walk(old(at), old(end))
        decreases Gap(at, end)
      {
        ghost var before := at;
        var p := Next();
        if p.None? {
          assert ps + [] == ps;
          return;
        }
        assert Walk(before, end) == [at] + Walk(at, end);
        ps := ps + [at];
      }
    }
  }

  // ---------------------------------------------------------------------------
  // A wire's segments and points
  // ---------------------------------------------------------------------------

  function SegsFrom(loc: Point, path: seq<(Dir, nat)>): seq<(Point, Point)>
    decreases |path|
  {
    if |path| == 0 then []
    else
      var next := Go(path[0].0, loc, path[0].1);
      [(loc, next)] + SegsFrom(next, path[1..])
  }

  /** `Wire::segs`: one segment per move, from where the last one ended, starting at the origin. */
  function Segs(w: Wire): seq<(Point, Point)>
  {
    SegsFrom((0, 0), w.path)
  }

  /** The segments of a path form a chain: each ends after its move and the next starts there. */
  lemma {:induction false} SegsChain(loc: Point, path: seq<(Dir, nat)>)
    ensures |SegsFrom(loc, path)| == |path|
    ensures |path| > 0 ==> SegsFrom(loc, path)[0].0 == loc
    ensures forall i :: 0 <= i < |path| ==>
      SegsFrom(loc, path)[i].1 == Go(path[i].0, SegsFrom(loc, path)[i].0, path[i].1)
    ensures forall i :: 0 < i < |path| ==> SegsFrom(loc, path)[i].0 == SegsFrom(loc, path)[i - 1].1
    decreases |path|
  {
    if |path| > 0 {
      var next := Go(path[0].0, loc, path[0].1);
      SegsChain(next, path[1..]);
      var s := SegsFrom(loc, path);
      assert forall i :: 0 < i < |path| ==> s[i] == SegsFrom(next, path[1..])[i - 1];
    }
  }

  /** The segments of the path of the test. */
  lemma SegsExample()
    ensures Segs(Wire([(Up, 7), (Right, 6), (Down, 4), (Left, 4)])) ==
      [((0, 0), (0, 7)), ((0, 7), (6, 7)), ((6, 7), (6, 3)), ((6, 3), (2, 3))]
  {
  }

  function Flatten(segs: seq<(Point, Point)>): seq<Point>
  {
    if |segs| == 0 then [] else Walk(segs[0].0, segs[0].1) + Flatten(segs[1..])
  }

  /** Every point the wire visits, in order: its segments' iterators chained. */
  function Points(w: Wire): seq<Point>
  {
    Flatten(Segs(w))
  }

  function Length(path: seq<(Dir, nat)>): nat
  {
    if |path| == 0 then 0 else path[0].1 + Length(path[1..])
  }

  /** A wire visits exactly as many points, counted with repeats, as its moves add up to. */
  lemma {:induction false} PointsCount(loc: Point, path: seq<(Dir, nat)>)
    ensures |Flatten(SegsFrom(loc, path))| == Length(path)
    decreases |path|
  {
    if |path| > 0 {
      var next := Go(path[0].0, loc, path[0].1);
      WalkShape(loc, next);
      PointsCount(next, path[1..]);
    }
  }

  // ---------------------------------------------------------------------------
  // Crossings
  // ---------------------------------------------------------------------------

  /** `intersect`: the points both wires visit. */
  function Intersect(w1: Wire, w2: Wire): (r: set<Point>)
    ensures forall p :: p in r <==> p in Points(w1) && p in Points(w2)
  {
    set p | p in Points(w1) && p in Points(w2)
  }

  /** The first position of `x` in `xs`. */
  function IndexOf<T(==)>(xs: seq<T>, x: T): (r: Option<nat>)
    ensures r.None? <==> x !in xs
    ensures r.Some? ==> r.value < |xs| && xs[r.value] == x && x !in xs[..r.value]
  {
    if |xs| == 0 then None
    else if xs[0] == x then Some(0)
    else match IndexOf(xs[1..], x)
      case None => None
      case Some(i) =>
        assert xs[..i + 1] == [xs[0]] + xs[1..][..i];
        Some(i + 1)
  }

  /** `steps_to`: the number of unit steps until the wire first reaches `p`, if it ever does. */
  function StepsTo(w: Wire, p: Point): (r: Option<nat>)
    ensures r.None? <==> p !in Points(w)
    ensures r.Some? ==> 1 <= r.value <= |Points(w)| && Points(w)[r.value - 1] == p
    ensures r.Some? ==> forall i :: 0 <= i < r.value - 1 ==> Points(w)[i] != p
  {
    match IndexOf(Points(w), p)
    case None => None
    case Some(i) =>
      assert forall j :: 0 <= j < i ==> Points(w)[j] == Points(w)[..i][j];
      Some(i + 1)
  }

  /** There is always a least element of a non-empty set of naturals. */
  lemma HasLeast(s: set<nat>)
    requires s != {}
    ensures exists m :: m in s && forall x :: x in s ==> m <= x
  {
    var y :| y in s;
    LeastBelow(s, y);
  }

  lemma {:induction false} LeastBelow(s: set<nat>, y: nat)
    requires y in s
    ensures exists m :: m in s && forall x :: x in s ==> m <= x
    decreases y
  {
    if exists z :: z in s && z < y {
      var z :| z in s && z < y;
      LeastBelow(s, z);
    } else {
      assert forall x :: x in s ==> y <= x;
    }
  }

  /** `min().unwrap_or(0)`: the least element, or 0 for the empty set. */
  function Least(s: set<nat>): (m: nat)
    ensures s == {} ==> m == 0
    ensures s != {} ==> m in s && forall x :: x in s ==> m <= x
  {
    if s == {} then 0
    else
      HasLeast(s);
      var m :| m in s && forall x :: x in s ==> m <= x;
      m
  }

  /** `part1`: the distance of the crossing nearest the origin, 0 when the wires never cross. */
  function Part1(w1: Wire, w2: Wire): (d: nat)
    ensures Intersect(w1, w2) == {} ==> d == 0
    ensures Intersect(w1, w2) != {} ==>
      (exists p :: p in Intersect(w1, w2) && d == Dist(p)) &&
      forall p :: p in Intersect(w1, w2) ==> d <= Dist(p)
  {
    var ds := set p | p in Intersect(w1, w2) :: Dist(p);
    assert forall p :: p in Intersect(w1, w2) ==> Dist(p) in ds;
    Least(ds)
  }

  /** The combined steps of both wires to a crossing; neither `steps_to` can fail there. */
  function Delay(w1: Wire, w2: Wire, p: Point): nat
    requires p in Intersect(w1, w2)
  {
    StepsTo(w1, p).value + StepsTo(w2, p).value
  }

  /** `part2`: the fewest combined steps to a crossing, 0 when the wires never cross. */
  function Part2(w1: Wire, w2: Wire): (d: nat)
    ensures Intersect(w1, w2) == {} ==> d == 0
    ensures Intersect(w1, w2) != {} ==>
      (exists p :: p in Intersect(w1, w2) && d == Delay(w1, w2, p)) &&
      forall p :: p in Intersect(w1, w2) ==> d <= Delay(w1, w2, p)
  {
    var ds := set p | p in Intersect(w1, w2) :: Delay(w1, w2, p);
    assert forall p :: p in Intersect(w1, w2) ==> Delay(w1, w2, p) in ds;
    Least(ds)
  }

  /** A crossing is never nearer than 2 combined steps: each wire needs one step to leave the origin. */
  lemma DelayAtLeastTwo(w1: Wire, w2: Wire, p: Point)
    requires p in Intersect(w1, w2)
    ensures Delay(w1, w2, p) >= 2
  {
  }

  // ---------------------------------------------------------------------------
  // The first example of the tests
  // ---------------------------------------------------------------------------

  function Example1(): Wire
  {
    Wire([(Right, 8), (Up, 5), (Left, 5), (Down, 3)])
  }

  function Example2(): Wire
  {
    Wire([(Up, 7), (Right, 6), (Down, 4), (Left, 4)])
  }

  lemma SegsExample1()
    ensures Segs(Example1()) == [((0, 0), (8, 0)), ((8, 0), (8, 5)), ((8, 5), (3, 5)), ((3, 5), (3, 2))]
  {
  }

  lemma SegsExample2()
    ensures Segs(Example2()) == [((0, 0), (0, 7)), ((0, 7), (6, 7)), ((6, 7), (6, 3)), ((6, 3), (2, 3))]
  {
  }

  /** The points 1, 2, …, `amt` units along a move from `loc`. */
  function Stretch(d: Dir, loc: Point, amt: nat): seq<Point>
  {
    seq(amt, i requires 0 <= i < amt => Go(d, loc, i + 1))
  }

  lemma PointsExample1()
    ensures Points(Example1()) ==
      Stretch(Right, (0, 0), 8) + Stretch(Up, (8, 0), 5) + Stretch(Left, (8, 5), 5) + Stretch(Down, (3, 5), 3)
  {
    SegsExample1();
    WalkGo(Right, (0, 0), 8);
    WalkGo(Up, (8, 0), 5);
    WalkGo(Left, (8, 5), 5);
    WalkGo(Down, (3, 5), 3);
    FlattenFour(Segs(Example1()));
  }

  lemma PointsExample2()
    ensures Points(Example2()) ==
      Stretch(Up, (0, 0), 7) + Stretch(Right, (0, 7), 6) + Stretch(Down, (6, 7), 4) + Stretch(Left, (6, 3), 4)
  {
    SegsExample2();
    WalkGo(Up, (0, 0), 7);
    WalkGo(Right, (0, 7), 6);
    WalkGo(Down, (6, 7), 4);
    WalkGo(Left, (6, 3), 4);
    FlattenFour(Segs(Example2()));
  }

  lemma FlattenFour(segs: seq<(Point, Point)>)
    requires |segs| == 4
    ensures Flatten(segs) == Walk(segs[0].0, segs[0].1) + Walk(segs[1].0, segs[1].1) +
      Walk(segs[2].0, segs[2].1) + Walk(segs[3].0, segs[3].1)
  {
    var w0, w1 := Walk(segs[0].0, segs[0].1), Walk(segs[1].0, segs[1].1);
    var w2, w3 := Walk(segs[2].0, segs[2].1), Walk(segs[3].0, segs[3].1);
    assert Flatten(segs[3..]) == w3 by {
      assert segs[3..][1..] == [];
    }
    assert Flatten(segs[2..]) == w2 + w3 by {
      assert segs[2..][1..] == segs[3..];
    }
    assert Flatten(segs[1..]) == w1 + (w2 + w3) by {
      assert segs[1..][1..] == segs[2..];
    }
    assert w0 + (w1 + (w2 + w3)) == w0 + w1 + w2 + w3;
  }

  /** The first wire's points: along y = 0, up x = 8, back along y = 5 and down x = 3. */
  predicate OnPath1(p: Point)
  {
    (1 <= p.0 <= 8 && p.1 == 0) || (p.0 == 8 && 1 <= p.1 <= 5) ||
    (3 <= p.0 <= 7 && p.1 == 5) || (p.0 == 3 && 2 <= p.1 <= 4)
  }

  /** The second wire's points: up x = 0, along y = 7, down x = 6 and back along y = 3. */
  predicate OnPath2(p: Point)
  {
    (p.0 == 0 && 1 <= p.1 <= 7) || (1 <= p.0 <= 6 && p.1 == 7) ||
    (p.0 == 6 && 3 <= p.1 <= 6) || (2 <= p.0 <= 5 && p.1 == 3)
  }

  lemma OnExample1()
    ensures forall p :: p in Points(Example1()) <==> OnPath1(p)
  {
    PointsExample1();
    OnPoints1(Example1());
  }

  lemma OnPoints1(w: Wire)
    requires Points(w) ==
      Stretch(Right, (0, 0), 8) + Stretch(Up, (8, 0), 5) + Stretch(Left, (8, 5), 5) + Stretch(Down, (3, 5), 3)
    ensures forall p :: p in Points(w) <==> OnPath1(p)
  {
    forall p
      ensures p in Points(w) <==> OnPath1(p)
    {
      InStretch(Right, (0, 0), 8, p);
      InStretch(Up, (8, 0), 5, p);
      InStretch(Left, (8, 5), 5, p);
      InStretch(Down, (3, 5), 3, p);
    }
  }

  lemma OnExample2()
    ensures forall p :: p in Points(Example2()) <==> OnPath2(p)
  {
    PointsExample2();
    OnPoints2(Example2());
  }

  lemma OnPoints2(w: Wire)
    requires Points(w) ==
      Stretch(Up, (0, 0), 7) + Stretch(Right, (0, 7), 6) + Stretch(Down, (6, 7), 4) + Stretch(Left, (6, 3), 4)
    ensures forall p :: p in Points(w) <==> OnPath2(p)
  {
    forall p
      ensures p in Points(w) <==> OnPath2(p)
    {
      InStretch(Up, (0, 0), 7, p);
      InStretch(Right, (0, 7), 6, p);
      InStretch(Down, (6, 7), 4, p);
      InStretch(Left, (6, 3), 4, p);
    }
  }

  lemma CrossingsOfPaths(w1: Wire, w2: Wire)
    requires forall p :: p in Points(w1) <==> OnPath1(p)
    requires forall p :: p in Points(w2) <==> OnPath2(p)
    ensures Intersect(w1, w2) == {(3, 3), (6, 5)}
  {
    forall p
      ensures p in Intersect(w1, w2) <==> p in {(3, 3), (6, 5)}
    {
    }
  }

  /** The wires of the test cross at (3, 3) and (6, 5) only. */
  lemma IntersectExample()
    ensures Intersect(Example1(), Example2()) == {(3, 3), (6, 5)}
  {
    OnExample1();
    OnExample2();
    CrossingsOfPaths(Example1(), Example2());
  }

  lemma NearestOf(w1: Wire, w2: Wire)
    requires Intersect(w1, w2) == {(3, 3), (6, 5)}
    ensures Part1(w1, w2) == 6
  {
    assert Dist((3, 3)) == 6 && Dist((6, 5)) == 11;
  }

  /** The nearest crossing is (3, 3), at distance 6. */
  lemma Part1Example()
    ensures Part1(Example1(), Example2()) == 6
  {
    IntersectExample();
    NearestOf(Example1(), Example2());
  }

  /** A wire that is at `p` after its `k`-th point and never before needs `k + 1` steps to get there. */
  lemma StepsToAt(w: Wire, p: Point, k: nat)
    requires k < |Points(w)| && Points(w)[k] == p
    requires forall j :: 0 <= j < k ==> Points(w)[j] != p
    ensures StepsTo(w, p) == Some(k + 1)
  {
  }

  lemma StepsExample1()
    ensures StepsTo(Example1(), (6, 5)) == Some(15) && StepsTo(Example1(), (3, 3)) == Some(20)
  {
    PointsExample1();
    StepsOn1(Example1());
  }

  lemma StepsOn1(w: Wire)
    requires Points(w) ==
      Stretch(Right, (0, 0), 8) + Stretch(Up, (8, 0), 5) + Stretch(Left, (8, 5), 5) + Stretch(Down, (3, 5), 3)
    ensures StepsTo(w, (6, 5)) == Some(15) && StepsTo(w, (3, 3)) == Some(20)
  {
    var ps := Points(w);
    assert forall j :: 0 <= j < 8 ==> ps[j] == (j + 1, 0);
    assert forall j :: 8 <= j < 13 ==> ps[j] == (8, j - 7);
    assert forall j :: 13 <= j < 18 ==> ps[j] == (20 - j, 5);
    assert forall j :: 18 <= j < 21 ==> ps[j] == (3, 22 - j);
    StepsToAt(w, (6, 5), 14);
    StepsToAt(w, (3, 3), 19);
  }

  lemma StepsExample2()
    ensures StepsTo(Example2(), (6, 5)) == Some(15) && StepsTo(Example2(), (3, 3)) == Some(20)
  {
    PointsExample2();
    StepsOn2(Example2());
  }

  lemma StepsOn2(w: Wire)
    requires Points(w) ==
      Stretch(Up, (0, 0), 7) + Stretch(Right, (0, 7), 6) + Stretch(Down, (6, 7), 4) + Stretch(Left, (6, 3), 4)
    ensures StepsTo(w, (6, 5)) == Some(15) && StepsTo(w, (3, 3)) == Some(20)
  {
    var ps := Points(w);
    assert forall j :: 0 <= j < 7 ==> ps[j] == (0, j + 1);
    assert forall j :: 7 <= j < 13 ==> ps[j] == (j - 6, 7);
    assert forall j :: 13 <= j < 17 ==> ps[j] == (6, 19 - j);
    assert forall j :: 17 <= j < 21 ==> ps[j] == (22 - j, 3);
    StepsToAt(w, (6, 5), 14);
    StepsToAt(w, (3, 3), 19);
  }

  lemma FewestOf(w1: Wire, w2: Wire)
    requires Intersect(w1, w2) == {(3, 3), (6, 5)}
    requires StepsTo(w1, (6, 5)) == Some(15) && StepsTo(w1, (3, 3)) == Some(20)
    requires StepsTo(w2, (6, 5)) == Some(15) && StepsTo(w2, (3, 3)) == Some(20)
    ensures Part2(w1, w2) == 30
  {
    assert Delay(w1, w2, (6, 5)) == 30 && Delay(w1, w2, (3, 3)) == 40;
  }

  /** The crossing reached first is (6, 5), after 15 steps of each wire. */
  lemma Part2Example()
    ensures Part2(Example1(), Example2()) == 30
  {
    IntersectExample();
    StepsExample1();
    StepsExample2();
    FewestOf(Example1(), Example2());
  }
}
