/**
 * Day 10 (src/p10.rs): asteroids on a grid, and the ones a monitoring
 * station can see, found by repeatedly removing every asteroid that lies
 * behind another one.
 */
module P10 {
  import opened Wrappers
  import opened Text

  // ---------------------------------------------------------------------------
  // Points
  // ---------------------------------------------------------------------------

  datatype Point = Point(x: int, y: int)

  /** `Point + Point`, componentwise. */
  function Add(p: Point, q: Point): (r: Point)
    ensures r.x == p.x + q.x && r.y == p.y + q.y
  {
    Point(p.x + q.x, p.y + q.y)
  }

  /** `Point - Point`, componentwise. */
  function Sub(p: Point, q: Point): (r: Point)
    ensures r.x == p.x - q.x && r.y == p.y - q.y
  {
    Point(p.x - q.x, p.y - q.y)
  }

  /** Subtracting undoes adding, and adding undoes subtracting. */
  lemma AddSubInverse(p: Point, q: Point)
    ensures Sub(Add(p, q), q) == p
    ensures Add(Sub(p, q), q) == p
    ensures Add(p, q) == Add(q, p)
  {
  }

  /** `in_range(x, y, z)`: `y` lies in the range from `x` to `z`, read half-open from either end. */
  predicate InRange(x: int, y: int, z: int)
  {
    var lo := if x <= z then x else z;
    var hi := if x <= z then z else x;
    (lo <= y && y < hi) || (lo < y && y <= hi)
  }

  /** The range is non-empty and `y` lies in it, both ends included. */
  lemma InRangeMeans(x: int, y: int, z: int)
    ensures InRange(x, y, z) <==> x != z && (if x <= z then x <= y <= z else z <= y <= x)
  {
  }

  /** `colinear`: the step from `self` to `end` and the step from `end` to `other` have a zero cross product. */
  predicate Colinear(self: Point, end: Point, other: Point)
  {
    (end.y - self.y) * (other.x - end.x) == (other.y - end.y) * (end.x - self.x)
  }

  /**
   * `self.between(p1, p2)`: `self` is on the line through `p1` and `p2`
   * and within their range on one of the axes.
   */
  predicate Between(self: Point, p1: Point, p2: Point)
  {
    Colinear(self, p1, p2) && (InRange(p1.x, self.x, p2.x) || InRange(p1.y, self.y, p2.y))
  }

  /** Nothing lies between a point and itself. */
  lemma BetweenSame(p: Point, a: Point)
    ensures !Between(p, a, a)
  {
  }

  /** Both ends of a segment lie between its ends, when they differ. */
  lemma BetweenEnds(a: Point, b: Point)
    ensures Between(a, a, b) <==> a != b
    ensures Between(b, a, b) <==> a != b
  {
    InRangeMeans(a.x, a.x, b.x);
    InRangeMeans(a.y, a.y, b.y);
    InRangeMeans(a.x, b.x, b.x);
    InRangeMeans(a.y, b.y, b.y);
  }

  /** `k` steps of `d`. */
  function Scale(d: Point, k: int): (r: Point)
    ensures r.x == k * d.x && r.y == k * d.y
  {
    Point(k * d.x, k * d.y)
  }

  lemma MulMono(s: int, t: int, c: int)
    requires s <= t && c >= 0
    ensures s * c <= t * c
  {
    assert t * c - s * c == (t - s) * c;
  }

  /** On one axis: after `s` of `t` steps of `c != 0` from `a`, the coordinate is within range of the end point. */
  lemma InRangeScaled(a: int, c: int, s: int, t: int)
    requires c != 0 && 0 <= s <= t && t > 0
    ensures InRange(a, a + s * c, a + t * c)
  {
    InRangeMeans(a, a + s * c, a + t * c);
    if c > 0 {
      MulMono(0, s, c);
      MulMono(s, t, c);
      MulMono(1, t, c);
    } else {
      MulMono(0, s, -c);
      MulMono(s, t, -c);
      MulMono(1, t, -c);
      assert s * (-c) == -(s * c) && t * (-c) == -(t * c);
    }
  }

  /**
   * Every lattice point of a segment from `a` in steps of `d != 0` lies
   * between `a` and the end, the ends included.
   */
  lemma BetweenOnSegment(a: Point, d: Point, s: int, t: int)
    requires d != Point(0, 0) && 0 <= s <= t && t > 0
    ensures Between(Add(a, Scale(d, s)), a, Add(a, Scale(d, t)))
  {
    var p := Add(a, Scale(d, s));
    var d1 := Sub(a, p);
    var d2 := Sub(Add(a, Scale(d, t)), a);
    assert d1 == Point(-(s * d.x), -(s * d.y));
    assert d2 == Point(t * d.x, t * d.y);
    assert (s * d.y) * (t * d.x) == (t * d.y) * (s * d.x);
    if d.x != 0 {
      InRangeScaled(a.x, d.x, s, t);
    } else {
      InRangeScaled(a.y, d.y, s, t);
    }
  }

  // ---------------------------------------------------------------------------
  // The map
  // ---------------------------------------------------------------------------

  /** The asteroids of one row, `y`, from column `x` on. */
  function RowAsteroids(line: string, x: nat, y: nat): (ps: set<Point>)
    ensures forall p :: p in ps ==> p.y == y && x <= p.x < x + |line|
    decreases |line|
  {
    if |line| == 0 then {}
    else (if line[0] == '#' then {Point(x, y)} else {}) + RowAsteroids(line[1..], x + 1, y)
  }

  /** The asteroids of the lines, the first being row `y`. */
  function RowsAsteroids(lines: seq<string>, y: nat): (ps: set<Point>)
    ensures forall p :: p in ps ==> y <= p.y < y + |lines|
    decreases |lines|
  {
    if |lines| == 0 then {}
    else RowAsteroids(lines[0], 0, y) + RowsAsteroids(lines[1..], y + 1)
  }

  /** `Map::from_str`: the points of the `#` characters, the column as `x` and the line as `y`; it never fails. */
  function FromStr(s: string): (r: Result<set<Point>, string>)
    ensures r.Ok?
  {
    Ok(RowsAsteroids(Lines(s), 0))
  }

  /** Whether the grid has an asteroid at `p`. */
  predicate IsAsteroid(lines: seq<string>, p: Point)
  {
    0 <= p.y < |lines| && 0 <= p.x < |lines[p.y]| && lines[p.y][p.x] == '#'
  }

  lemma {:induction false} RowAsteroidsMeans(line: string, x: nat, y: nat, p: Point)
    ensures p in RowAsteroids(line, x, y) <==> p.y == y && x <= p.x < x + |line| && line[p.x - x] == '#'
    decreases |line|
  {
    if |line| > 0 {
      RowAsteroidsMeans(line[1..], x + 1, y, p);
      if p.x > x && p.x < x + |line| {
        assert line[p.x - x] == line[1..][p.x - (x + 1)];
      }
    }
  }

  lemma {:induction false} RowsAsteroidsMeans(lines: seq<string>, y: nat, p: Point)
    ensures p in RowsAsteroids(lines, y) <==>
      y <= p.y < y + |lines| && 0 <= p.x < |lines[p.y - y]| && lines[p.y - y][p.x] == '#'
    decreases |lines|
  {
    if |lines| > 0 {
      RowAsteroidsMeans(lines[0], 0, y, p);
      RowsAsteroidsMeans(lines[1..], y + 1, p);
      if p.y > y && p.y < y + |lines| {
        assert lines[p.y - y] == lines[1..][p.y - (y + 1)];
      }
    }
  }

  /** The parsed map holds exactly the points of the `#` characters of the text's lines. */
  lemma FromStrMeans(s: string, p: Point)
    ensures p in FromStr(s).value <==> IsAsteroid(Lines(s), p)
  {
    RowsAsteroidsMeans(Lines(s), 0, p);
  }

  // ---------------------------------------------------------------------------
  // Visibility
  // ---------------------------------------------------------------------------

  /** The asteroids of `visible` that `p2` hides from the station `p1`: `p2` lies between the station and them. */
  function Hidden(visible: set<Point>, p1: Point, p2: Point): (remove: set<Point>)
    ensures remove <= visible
    ensures forall p3 :: p3 in remove <==> p3 in visible && p2 != p3 && Between(p2, p1, p3)
  {
    set p3 | p3 in visible && p2 != p3 && Between(p2, p1, p3)
  }

  /** No asteroid of `visible` other than the station hides another one of them. */
  predicate Unobstructed(visible: set<Point>, p1: Point)
  {
    forall p2, p3 :: p2 in visible && p3 in visible && p2 != p1 && p2 != p3 ==> !Between(p2, p1, p3)
  }

  /** Every asteroid of `m` missing from `visible` is hidden from the station by some asteroid of `m`. */
  predicate RemovedHidden(m: set<Point>, visible: set<Point>, p1: Point)
  {
    forall p3 :: p3 in m && p3 !in visible ==> HiddenBySome(m, p1, p3)
  }

  /** Some asteroid of `m` other than the station lies between the station and `p3`. */
  predicate HiddenBySome(m: set<Point>, p1: Point, p3: Point)
  {
    exists p2 :: p2 in m && p2 != p1 && p2 != p3 && Between(p2, p1, p3)
  }

  /** What `visible_from` promises of its result. */
  predicate VisibleSet(m: set<Point>, p1: Point, visible: set<Point>)
  {
    visible <= m && (p1 in m ==> p1 in visible) && Unobstructed(visible, p1) && RemovedHidden(m, visible, p1)
  }

  /**
   * One round of `visible_from`: the asteroids of `visible` other than the
   * station, in an unspecified order, until one hides some others; what that
   * one hides, or nothing when none does.
   */
  method FindHidden(visible: set<Point>, p1: Point) returns (remove: set<Point>)
    ensures remove == {} ==> forall p2 :: p2 in visible && p2 != p1 ==> Hidden(visible, p1, p2) == {}
    ensures remove != {} ==> exists p2 :: p2 in visible && p2 != p1 && remove == Hidden(visible, p1, p2)
  {
    remove := {};
    var todo := visible;
    while todo != {}
      invariant todo <= visible
      invariant remove == {}
      invariant forall p2 :: p2 in visible - todo && p2 != p1 ==> Hidden(visible, p1, p2) == {}
      decreases |todo|
    {
      var p2 :| p2 in todo;
      todo := todo - {p2};
      if p2 == p1 {
        continue;
      }
      remove := Hidden(visible, p1, p2);
      if remove != {} {
        break;
      }
    }
  }

  /** When no asteroid hides any other, the set is unobstructed. */
  lemma NoneHiddenUnobstructed(visible: set<Point>, p1: Point)
    requires forall p2 :: p2 in visible && p2 != p1 ==> Hidden(visible, p1, p2) == {}
    ensures Unobstructed(visible, p1)
  {
    forall p2, p3 | p2 in visible && p3 in visible && p2 != p1 && p2 != p3
      ensures !Between(p2, p1, p3)
    {
      assert p3 !in Hidden(visible, p1, p2);
    }
  }

  /** Removing what one asteroid hides keeps the station and keeps every removed asteroid accounted for. */
  lemma RemoveHiddenKeeps(m: set<Point>, visible: set<Point>, p1: Point, p2: Point)
    requires visible <= m && (p1 in m ==> p1 in visible) && RemovedHidden(m, visible, p1)
    requires p2 in visible && p2 != p1
    ensures var rest := visible - Hidden(visible, p1, p2);
      rest <= m && (p1 in m ==> p1 in rest) && RemovedHidden(m, rest, p1)
  {
    var remove := Hidden(visible, p1, p2);
    if p1 in m {
      BetweenSame(p2, p1);
    }
    forall p3 | p3 in m && p3 !in visible - remove
      ensures exists q :: q in m && q != p1 && q != p3 && Between(q, p1, p3)
    {
      if p3 in remove {
        assert p2 in m && p2 != p1 && p2 != p3 && Between(p2, p1, p3);
      }
    }
  }

  /**
   * `Map::visible_from`: starting from every asteroid, each round looks for
   * an asteroid other than the station that hides some others and removes
   * those, until no asteroid hides any.  The rounds visit the set in an
   * unspecified order, as a `HashSet` iterates.
   */
  method VisibleFrom(m: set<Point>, p1: Point) returns (visible: set<Point>)
    ensures VisibleSet(m, p1, visible)
  {
    visible := m;
    while true
      invariant visible <= m && (p1 in m ==> p1 in visible) && RemovedHidden(m, visible, p1)
      decreases |visible|
    {
      var remove := FindHidden(visible, p1);
      if remove == {} {
        NoneHiddenUnobstructed(visible, p1);
        break;
      }
      ghost var p2 :| p2 in visible && p2 != p1 && remove == Hidden(visible, p1, p2);
      RemoveHiddenKeeps(m, visible, p1, p2);
      visible := visible - remove;
    }
  }

  /** The best so far is one of the asteroids seen, with its count, and no asteroid seen has a higher count. */
  predicate BestSoFar(m: set<Point>, best: Option<(Point, nat)>, sets: map<Point, set<Point>>)
  {
    && (forall q :: q in sets ==> VisibleSet(m, q, sets[q]))
    && (best.None? <==> sets == map[])
    && (best.Some? ==> best.value.0 in sets && best.value.1 == |sets[best.value.0]| - 1)
    && (best.Some? ==> forall q :: q in sets ==> |sets[q]| - 1 <= best.value.1)
  }

  /** One turn of the loop of `part1`: count what `p` sees and keep it if it is no worse than the best so far. */
  method Consider(m: set<Point>, p: Point, best: Option<(Point, nat)>, ghost sets: map<Point, set<Point>>)
    returns (best': Option<(Point, nat)>, ghost sets': map<Point, set<Point>>)
    requires p in m && p !in sets && BestSoFar(m, best, sets)
    ensures p in sets' && sets' == sets[p := sets'[p]] && BestSoFar(m, best', sets')
  {
    var v := VisibleFrom(m, p);
    var cnt := |v| - 1;
    sets' := sets[p := v];
    if best.None? || best.value.1 <= cnt {
      best' := Some((p, cnt));
    } else {
      best' := best;
    }
    assert sets'.Keys == sets.Keys + {p};
  }

  /**
   * `part1`: an asteroid from which the most others are visible, with that
   * number (the visible set less the station itself); the `unwrap` panics on
   * an empty map.  `sets` records the visible set found from each asteroid.
   */
  method Part1(m: set<Point>) returns (best: Option<(Point, nat)>, ghost sets: map<Point, set<Point>>)
    ensures best.None? <==> m == {}
    ensures sets.Keys == m
    ensures forall q :: q in m ==> VisibleSet(m, q, sets[q])
    ensures best.Some? ==> best.value.0 in m && best.value.1 == |sets[best.value.0]| - 1
    ensures best.Some? ==> forall q :: q in m ==> |sets[q]| - 1 <= best.value.1
  {
    best := None;
    sets := map[];
    var todo := m;
    while todo != {}
      invariant todo <= m && sets.Keys == m - todo && BestSoFar(m, best, sets)
      decreases |todo|
    {
      var p :| p in todo;
      todo := todo - {p};
      best, sets := Consider(m, p, best, sets);
    }
  }

  // ---------------------------------------------------------------------------
  // The visible set is fixed by the map
  // ---------------------------------------------------------------------------

  /**
   * What `visible_from` returns is fixed by the map: when nothing lies
   * between the station and each asteroid of `clear`, and each of the other
   * asteroids, `hidden`, has one of `clear` in front of it, the visible set
   * is `clear`.
   */
  lemma VisibleExactly(m: set<Point>, p1: Point, v: set<Point>, clear: set<Point>, hidden: set<Point>)
    requires VisibleSet(m, p1, v)
    requires m == clear + hidden
    requires forall p3 :: p3 in clear ==> !HiddenBySome(m, p1, p3)
    requires forall h :: h in hidden ==> exists r :: r in clear && r != p1 && r != h && Between(r, p1, h)
    ensures v == clear
  {
    assert clear <= v;
  }

  // ---------------------------------------------------------------------------
  // The map of the unit tests
  // ---------------------------------------------------------------------------

  /** The text of the 5x5 map of the unit tests. */
  function ExampleText(): string
  {
    ".#..#" + "\n" + "....." + "\n" + "#####" + "\n" + "....#" + "\n" + "...##"
  }

  /** The asteroids of the 5x5 test map. */
  function ExampleMap(): set<Point>
  {
    {Point(1, 0), Point(4, 0), Point(0, 2), Point(1, 2), Point(2, 2), Point(3, 2), Point(4, 2), Point(4, 3), Point(3, 4), Point(4, 4)}
  }

  /** From (1, 0), 8 asteroids are visible, the station included: the others hide (4, 3) and (3, 4). */
  lemma Seen10(v: set<Point>)
    requires VisibleSet(ExampleMap(), Point(1, 0), v)
    ensures |v| == 8
  {
    var clear := {Point(1, 0), Point(4, 0), Point(0, 2), Point(1, 2), Point(2, 2), Point(3, 2), Point(4, 2), Point(4, 4)};
    var hidden := {Point(4, 3), Point(3, 4)};
    Seen10Clear(clear);
    Seen10Parts(clear, hidden);
    Seen10Shade(clear, hidden);
    VisibleExactly(ExampleMap(), Point(1, 0), v, clear, hidden);
  }

  /** Nothing hides the asteroids that (1, 0) sees. */
  lemma Seen10Clear(clear: set<Point>)
    requires clear == {Point(1, 0), Point(4, 0), Point(0, 2), Point(1, 2), Point(2, 2), Point(3, 2), Point(4, 2), Point(4, 4)}
    ensures forall p3 :: p3 in clear ==> !HiddenBySome(ExampleMap(), Point(1, 0), p3)
  {
  }

  /** The map seen from (1, 0): 8 visible asteroids and the hidden ones. */
  lemma Seen10Parts(clear: set<Point>, hidden: set<Point>)
    requires clear == {Point(1, 0), Point(4, 0), Point(0, 2), Point(1, 2), Point(2, 2), Point(3, 2), Point(4, 2), Point(4, 4)}
    requires hidden == {Point(4, 3), Point(3, 4)}
    ensures |clear| == 8 && ExampleMap() == clear + hidden
  {
  }

  /** Each asteroid hidden from (1, 0) has a visible one in front of it. */
  lemma Seen10Shade(clear: set<Point>, hidden: set<Point>)
    requires clear == {Point(1, 0), Point(4, 0), Point(0, 2), Point(1, 2), Point(2, 2), Point(3, 2), Point(4, 2), Point(4, 4)}
    requires hidden == {Point(4, 3), Point(3, 4)}
    ensures forall h :: h in hidden ==> exists r :: r in clear && r != Point(1, 0) && r != h && Between(r, Point(1, 0), h)
  {
    forall h | h in hidden
      ensures exists r :: r in clear && r != Point(1, 0) && r != h && Between(r, Point(1, 0), h)
    {
      if h == Point(4, 3) {
        assert Between(Point(3, 2), Point(1, 0), h);
      } else if h == Point(3, 4) {
        assert Between(Point(2, 2), Point(1, 0), h);
      }
    }
  }

  /** From (4, 0), 8 asteroids are visible, the station included: the others hide (4, 3) and (4, 4). */
  lemma Seen40(v: set<Point>)
    requires VisibleSet(ExampleMap(), Point(4, 0), v)
    ensures |v| == 8
  {
    var clear := {Point(1, 0), Point(4, 0), Point(0, 2), Point(1, 2), Point(2, 2), Point(3, 2), Point(4, 2), Point(3, 4)};
    var hidden := {Point(4, 3), Point(4, 4)};
    Seen40Clear(clear);
    Seen40Parts(clear, hidden);
    Seen40Shade(clear, hidden);
    VisibleExactly(ExampleMap(), Point(4, 0), v, clear, hidden);
  }

  /** Nothing hides the asteroids that (4, 0) sees. */
  lemma Seen40Clear(clear: set<Point>)
    requires clear == {Point(1, 0), Point(4, 0), Point(0, 2), Point(1, 2), Point(2, 2), Point(3, 2), Point(4, 2), Point(3, 4)}
    ensures forall p3 :: p3 in clear ==> !HiddenBySome(ExampleMap(), Point(4, 0), p3)
  {
  }

  /** The map seen from (4, 0): 8 visible asteroids and the hidden ones. */
  lemma Seen40Parts(clear: set<Point>, hidden: set<Point>)
    requires clear == {Point(1, 0), Point(4, 0), Point(0, 2), Point(1, 2), Point(2, 2), Point(3, 2), Point(4, 2), Point(3, 4)}
    requires hidden == {Point(4, 3), Point(4, 4)}
    ensures |clear| == 8 && ExampleMap() == clear + hidden
  {
  }

  /** Each asteroid hidden from (4, 0) has a visible one in front of it. */
  lemma Seen40Shade(clear: set<Point>, hidden: set<Point>)
    requires clear == {Point(1, 0), Point(4, 0), Point(0, 2), Point(1, 2), Point(2, 2), Point(3, 2), Point(4, 2), Point(3, 4)}
    requires hidden == {Point(4, 3), Point(4, 4)}
    ensures forall h :: h in hidden ==> exists r :: r in clear && r != Point(4, 0) && r != h && Between(r, Point(4, 0), h)
  {
    forall h | h in hidden
      ensures exists r :: r in clear && r != Point(4, 0) && r != h && Between(r, Point(4, 0), h)
    {
      if h == Point(4, 3) {
        assert Between(Point(4, 2), Point(4, 0), h);
      } else if h == Point(4, 4) {
        assert Between(Point(4, 2), Point(4, 0), h);
      }
    }
  }

  /** From (0, 2), 7 asteroids are visible, the station included: the others hide (2, 2) and (3, 2) and (4, 2). */
  lemma Seen02(v: set<Point>)
    requires VisibleSet(ExampleMap(), Point(0, 2), v)
    ensures |v| == 7
  {
    var clear := {Point(1, 0), Point(4, 0), Point(0, 2), Point(1, 2), Point(4, 3), Point(3, 4), Point(4, 4)};
    var hidden := {Point(2, 2), Point(3, 2), Point(4, 2)};
    Seen02Clear(clear);
    Seen02Parts(clear, hidden);
    Seen02Shade(clear, hidden);
    VisibleExactly(ExampleMap(), Point(0, 2), v, clear, hidden);
  }

  /** Nothing hides the asteroids that (0, 2) sees. */
  lemma Seen02Clear(clear: set<Point>)
    requires clear == {Point(1, 0), Point(4, 0), Point(0, 2), Point(1, 2), Point(4, 3), Point(3, 4), Point(4, 4)}
    ensures forall p3 :: p3 in clear ==> !HiddenBySome(ExampleMap(), Point(0, 2), p3)
  {
  }

  /** The map seen from (0, 2): 7 visible asteroids and the hidden ones. */
  lemma Seen02Parts(clear: set<Point>, hidden: set<Point>)
    requires clear == {Point(1, 0), Point(4, 0), Point(0, 2), Point(1, 2), Point(4, 3), Point(3, 4), Point(4, 4)}
    requires hidden == {Point(2, 2), Point(3, 2), Point(4, 2)}
    ensures |clear| == 7 && ExampleMap() == clear + hidden
  {
  }

  /** Each asteroid hidden from (0, 2) has a visible one in front of it. */
  lemma Seen02Shade(clear: set<Point>, hidden: set<Point>)
    requires clear == {Point(1, 0), Point(4, 0), Point(0, 2), Point(1, 2), Point(4, 3), Point(3, 4), Point(4, 4)}
    requires hidden == {Point(2, 2), Point(3, 2), Point(4, 2)}
    ensures forall h :: h in hidden ==> exists r :: r in clear && r != Point(0, 2) && r != h && Between(r, Point(0, 2), h)
  {
    forall h | h in hidden
      ensures exists r :: r in clear && r != Point(0, 2) && r != h && Between(r, Point(0, 2), h)
    {
      if h == Point(2, 2) {
        assert Between(Point(1, 2), Point(0, 2), h);
      } else if h == Point(3, 2) {
        assert Between(Point(1, 2), Point(0, 2), h);
      } else if h == Point(4, 2) {
        assert Between(Point(1, 2), Point(0, 2), h);
      }
    }
  }

  /** From (1, 2), 8 asteroids are visible, the station included: the others hide (3, 2) and (4, 2). */
  lemma Seen12(v: set<Point>)
    requires VisibleSet(ExampleMap(), Point(1, 2), v)
    ensures |v| == 8
  {
    var clear := {Point(1, 0), Point(4, 0), Point(0, 2), Point(1, 2), Point(2, 2), Point(4, 3), Point(3, 4), Point(4, 4)};
    var hidden := {Point(3, 2), Point(4, 2)};
    Seen12Clear(clear);
    Seen12Parts(clear, hidden);
    Seen12Shade(clear, hidden);
    VisibleExactly(ExampleMap(), Point(1, 2), v, clear, hidden);
  }

  /** Nothing hides the asteroids that (1, 2) sees. */
  lemma Seen12Clear(clear: set<Point>)
    requires clear == {Point(1, 0), Point(4, 0), Point(0, 2), Point(1, 2), Point(2, 2), Point(4, 3), Point(3, 4), Point(4, 4)}
    ensures forall p3 :: p3 in clear ==> !HiddenBySome(ExampleMap(), Point(1, 2), p3)
  {
  }

  /** The map seen from (1, 2): 8 visible asteroids and the hidden ones. */
  lemma Seen12Parts(clear: set<Point>, hidden: set<Point>)
    requires clear == {Point(1, 0), Point(4, 0), Point(0, 2), Point(1, 2), Point(2, 2), Point(4, 3), Point(3, 4), Point(4, 4)}
    requires hidden == {Point(3, 2), Point(4, 2)}
    ensures |clear| == 8 && ExampleMap() == clear + hidden
  {
  }

  /** Each asteroid hidden from (1, 2) has a visible one in front of it. */
  lemma Seen12Shade(clear: set<Point>, hidden: set<Point>)
    requires clear == {Point(1, 0), Point(4, 0), Point(0, 2), Point(1, 2), Point(2, 2), Point(4, 3), Point(3, 4), Point(4, 4)}
    requires hidden == {Point(3, 2), Point(4, 2)}
    ensures forall h :: h in hidden ==> exists r :: r in clear && r != Point(1, 2) && r != h && Between(r, Point(1, 2), h)
  {
    forall h | h in hidden
      ensures exists r :: r in clear && r != Point(1, 2) && r != h && Between(r, Point(1, 2), h)
    {
      if h == Point(3, 2) {
        assert Between(Point(2, 2), Point(1, 2), h);
      } else if h == Point(4, 2) {
        assert Between(Point(2, 2), Point(1, 2), h);
      }
    }
  }

  /** From (2, 2), 8 asteroids are visible, the station included: the others hide (0, 2) and (4, 2). */
  lemma Seen22(v: set<Point>)
    requires VisibleSet(ExampleMap(), Point(2, 2), v)
    ensures |v| == 8
  {
    var clear := {Point(1, 0), Point(4, 0), Point(1, 2), Point(2, 2), Point(3, 2), Point(4, 3), Point(3, 4), Point(4, 4)};
    var hidden := {Point(0, 2), Point(4, 2)};
    Seen22Clear(clear);
    Seen22Parts(clear, hidden);
    Seen22Shade(clear, hidden);
    VisibleExactly(ExampleMap(), Point(2, 2), v, clear, hidden);
  }

  /** Nothing hides the asteroids that (2, 2) sees. */
  lemma Seen22Clear(clear: set<Point>)
    requires clear == {Point(1, 0), Point(4, 0), Point(1, 2), Point(2, 2), Point(3, 2), Point(4, 3), Point(3, 4), Point(4, 4)}
    ensures forall p3 :: p3 in clear ==> !HiddenBySome(ExampleMap(), Point(2, 2), p3)
  {
  }

  /** The map seen from (2, 2): 8 visible asteroids and the hidden ones. */
  lemma Seen22Parts(clear: set<Point>, hidden: set<Point>)
    requires clear == {Point(1, 0), Point(4, 0), Point(1, 2), Point(2, 2), Point(3, 2), Point(4, 3), Point(3, 4), Point(4, 4)}
    requires hidden == {Point(0, 2), Point(4, 2)}
    ensures |clear| == 8 && ExampleMap() == clear + hidden
  {
  }

  /** Each asteroid hidden from (2, 2) has a visible one in front of it. */
  lemma Seen22Shade(clear: set<Point>, hidden: set<Point>)
    requires clear == {Point(1, 0), Point(4, 0), Point(1, 2), Point(2, 2), Point(3, 2), Point(4, 3), Point(3, 4), Point(4, 4)}
    requires hidden == {Point(0, 2), Point(4, 2)}
    ensures forall h :: h in hidden ==> exists r :: r in clear && r != Point(2, 2) && r != h && Between(r, Point(2, 2), h)
  {
    forall h | h in hidden
      ensures exists r :: r in clear && r != Point(2, 2) && r != h && Between(r, Point(2, 2), h)
    {
      if h == Point(0, 2) {
        assert Between(Point(1, 2), Point(2, 2), h);
      } else if h == Point(4, 2) {
        assert Between(Point(3, 2), Point(2, 2), h);
      }
    }
  }

  /** From (3, 2), 8 asteroids are visible, the station included: the others hide (0, 2) and (1, 2). */
  lemma Seen32(v: set<Point>)
    requires VisibleSet(ExampleMap(), Point(3, 2), v)
    ensures |v| == 8
  {
    var clear := {Point(1, 0), Point(4, 0), Point(2, 2), Point(3, 2), Point(4, 2), Point(4, 3), Point(3, 4), Point(4, 4)};
    var hidden := {Point(0, 2), Point(1, 2)};
    Seen32Clear(clear);
    Seen32Parts(clear, hidden);
    Seen32Shade(clear, hidden);
    VisibleExactly(ExampleMap(), Point(3, 2), v, clear, hidden);
  }

  /** Nothing hides the asteroids that (3, 2) sees. */
  lemma Seen32Clear(clear: set<Point>)
    requires clear == {Point(1, 0), Point(4, 0), Point(2, 2), Point(3, 2), Point(4, 2), Point(4, 3), Point(3, 4), Point(4, 4)}
    ensures forall p3 :: p3 in clear ==> !HiddenBySome(ExampleMap(), Point(3, 2), p3)
  {
  }

  /** The map seen from (3, 2): 8 visible asteroids and the hidden ones. */
  lemma Seen32Parts(clear: set<Point>, hidden: set<Point>)
    requires clear == {Point(1, 0), Point(4, 0), Point(2, 2), Point(3, 2), Point(4, 2), Point(4, 3), Point(3, 4), Point(4, 4)}
    requires hidden == {Point(0, 2), Point(1, 2)}
    ensures |clear| == 8 && ExampleMap() == clear + hidden
  {
  }

  /** Each asteroid hidden from (3, 2) has a visible one in front of it. */
  lemma Seen32Shade(clear: set<Point>, hidden: set<Point>)
    requires clear == {Point(1, 0), Point(4, 0), Point(2, 2), Point(3, 2), Point(4, 2), Point(4, 3), Point(3, 4), Point(4, 4)}
    requires hidden == {Point(0, 2), Point(1, 2)}
    ensures forall h :: h in hidden ==> exists r :: r in clear && r != Point(3, 2) && r != h && Between(r, Point(3, 2), h)
  {
    forall h | h in hidden
      ensures exists r :: r in clear && r != Point(3, 2) && r != h && Between(r, Point(3, 2), h)
    {
      if h == Point(0, 2) {
        assert Between(Point(2, 2), Point(3, 2), h);
      } else if h == Point(1, 2) {
        assert Between(Point(2, 2), Point(3, 2), h);
      }
    }
  }

  /** From (4, 2), 6 asteroids are visible, the station included: the others hide (0, 2) and (1, 2) and (2, 2) and (4, 4). */
  lemma Seen42(v: set<Point>)
    requires VisibleSet(ExampleMap(), Point(4, 2), v)
    ensures |v| == 6
  {
    var clear := {Point(1, 0), Point(4, 0), Point(3, 2), Point(4, 2), Point(4, 3), Point(3, 4)};
    var hidden := {Point(0, 2), Point(1, 2), Point(2, 2), Point(4, 4)};
    Seen42Clear(clear);
    Seen42Parts(clear, hidden);
    Seen42Shade(clear, hidden);
    VisibleExactly(ExampleMap(), Point(4, 2), v, clear, hidden);
  }

  /** Nothing hides the asteroids that (4, 2) sees. */
  lemma Seen42Clear(clear: set<Point>)
    requires clear == {Point(1, 0), Point(4, 0), Point(3, 2), Point(4, 2), Point(4, 3), Point(3, 4)}
    ensures forall p3 :: p3 in clear ==> !HiddenBySome(ExampleMap(), Point(4, 2), p3)
  {
  }

  /** The map seen from (4, 2): 6 visible asteroids and the hidden ones. */
  lemma Seen42Parts(clear: set<Point>, hidden: set<Point>)
    requires clear == {Point(1, 0), Point(4, 0), Point(3, 2), Point(4, 2), Point(4, 3), Point(3, 4)}
    requires hidden == {Point(0, 2), Point(1, 2), Point(2, 2), Point(4, 4)}
    ensures |clear| == 6 && ExampleMap() == clear + hidden
  {
  }

  /** Each asteroid hidden from (4, 2) has a visible one in front of it. */
  lemma Seen42Shade(clear: set<Point>, hidden: set<Point>)
    requires clear == {Point(1, 0), Point(4, 0), Point(3, 2), Point(4, 2), Point(4, 3), Point(3, 4)}
    requires hidden == {Point(0, 2), Point(1, 2), Point(2, 2), Point(4, 4)}
    ensures forall h :: h in hidden ==> exists r :: r in clear && r != Point(4, 2) && r != h && Between(r, Point(4, 2), h)
  {
    forall h | h in hidden
      ensures exists r :: r in clear && r != Point(4, 2) && r != h && Between(r, Point(4, 2), h)
    {
      if h == Point(0, 2) {
        assert Between(Point(3, 2), Point(4, 2), h);
      } else if h == Point(1, 2) {
        assert Between(Point(3, 2), Point(4, 2), h);
      } else if h == Point(2, 2) {
        assert Between(Point(3, 2), Point(4, 2), h);
      } else if h == Point(4, 4) {
        assert Between(Point(4, 3), Point(4, 2), h);
      }
    }
  }

  /** From (4, 3), 8 asteroids are visible, the station included: the others hide (1, 0) and (4, 0). */
  lemma Seen43(v: set<Point>)
    requires VisibleSet(ExampleMap(), Point(4, 3), v)
    ensures |v| == 8
  {
    var clear := {Point(0, 2), Point(1, 2), Point(2, 2), Point(3, 2), Point(4, 2), Point(4, 3), Point(3, 4), Point(4, 4)};
    var hidden := {Point(1, 0), Point(4, 0)};
    Seen43Clear(clear);
    Seen43Parts(clear, hidden);
    Seen43Shade(clear, hidden);
    VisibleExactly(ExampleMap(), Point(4, 3), v, clear, hidden);
  }

  /** Nothing hides the asteroids that (4, 3) sees. */
  lemma Seen43Clear(clear: set<Point>)
    requires clear == {Point(0, 2), Point(1, 2), Point(2, 2), Point(3, 2), Point(4, 2), Point(4, 3), Point(3, 4), Point(4, 4)}
    ensures forall p3 :: p3 in clear ==> !HiddenBySome(ExampleMap(), Point(4, 3), p3)
  {
  }

  /** The map seen from (4, 3): 8 visible asteroids and the hidden ones. */
  lemma Seen43Parts(clear: set<Point>, hidden: set<Point>)
    requires clear == {Point(0, 2), Point(1, 2), Point(2, 2), Point(3, 2), Point(4, 2), Point(4, 3), Point(3, 4), Point(4, 4)}
    requires hidden == {Point(1, 0), Point(4, 0)}
    ensures |clear| == 8 && ExampleMap() == clear + hidden
  {
  }

  /** Each asteroid hidden from (4, 3) has a visible one in front of it. */
  lemma Seen43Shade(clear: set<Point>, hidden: set<Point>)
    requires clear == {Point(0, 2), Point(1, 2), Point(2, 2), Point(3, 2), Point(4, 2), Point(4, 3), Point(3, 4), Point(4, 4)}
    requires hidden == {Point(1, 0), Point(4, 0)}
    ensures forall h :: h in hidden ==> exists r :: r in clear && r != Point(4, 3) && r != h && Between(r, Point(4, 3), h)
  {
    forall h | h in hidden
      ensures exists r :: r in clear && r != Point(4, 3) && r != h && Between(r, Point(4, 3), h)
    {
      if h == Point(1, 0) {
        assert Between(Point(3, 2), Point(4, 3), h);
      } else if h == Point(4, 0) {
        assert Between(Point(4, 2), Point(4, 3), h);
      }
    }
  }

  /** From (3, 4), 9 asteroids are visible, the station included: the others hide (1, 0). */
  lemma Seen34(v: set<Point>)
    requires VisibleSet(ExampleMap(), Point(3, 4), v)
    ensures |v| == 9
  {
    var clear := {Point(4, 0), Point(0, 2), Point(1, 2), Point(2, 2), Point(3, 2), Point(4, 2), Point(4, 3), Point(3, 4), Point(4, 4)};
    var hidden := {Point(1, 0)};
    Seen34Clear(clear);
    Seen34Parts(clear, hidden);
    Seen34Shade(clear, hidden);
    VisibleExactly(ExampleMap(), Point(3, 4), v, clear, hidden);
  }

  /** Nothing hides the asteroids that (3, 4) sees. */
  lemma Seen34Clear(clear: set<Point>)
    requires clear == {Point(4, 0), Point(0, 2), Point(1, 2), Point(2, 2), Point(3, 2), Point(4, 2), Point(4, 3), Point(3, 4), Point(4, 4)}
    ensures forall p3 :: p3 in clear ==> !HiddenBySome(ExampleMap(), Point(3, 4), p3)
  {
  }

  /** The map seen from (3, 4): 9 visible asteroids and the hidden ones. */
  lemma Seen34Parts(clear: set<Point>, hidden: set<Point>)
    requires clear == {Point(4, 0), Point(0, 2), Point(1, 2), Point(2, 2), Point(3, 2), Point(4, 2), Point(4, 3), Point(3, 4), Point(4, 4)}
    requires hidden == {Point(1, 0)}
    ensures |clear| == 9 && ExampleMap() == clear + hidden
  {
  }

  /** Each asteroid hidden from (3, 4) has a visible one in front of it. */
  lemma Seen34Shade(clear: set<Point>, hidden: set<Point>)
    requires clear == {Point(4, 0), Point(0, 2), Point(1, 2), Point(2, 2), Point(3, 2), Point(4, 2), Point(4, 3), Point(3, 4), Point(4, 4)}
    requires hidden == {Point(1, 0)}
    ensures forall h :: h in hidden ==> exists r :: r in clear && r != Point(3, 4) && r != h && Between(r, Point(3, 4), h)
  {
    forall h | h in hidden
      ensures exists r :: r in clear && r != Point(3, 4) && r != h && Between(r, Point(3, 4), h)
    {
      if h == Point(1, 0) {
        assert Between(Point(2, 2), Point(3, 4), h);
      }
    }
  }

  /** From (4, 4), 8 asteroids are visible, the station included: the others hide (4, 0) and (4, 2). */
  lemma Seen44(v: set<Point>)
    requires VisibleSet(ExampleMap(), Point(4, 4), v)
    ensures |v| == 8
  {
    var clear := {Point(1, 0), Point(0, 2), Point(1, 2), Point(2, 2), Point(3, 2), Point(4, 3), Point(3, 4), Point(4, 4)};
    var hidden := {Point(4, 0), Point(4, 2)};
    Seen44Clear(clear);
    Seen44Parts(clear, hidden);
    Seen44Shade(clear, hidden);
    VisibleExactly(ExampleMap(), Point(4, 4), v, clear, hidden);
  }

  /** Nothing hides the asteroids that (4, 4) sees. */
  lemma Seen44Clear(clear: set<Point>)
    requires clear == {Point(1, 0), Point(0, 2), Point(1, 2), Point(2, 2), Point(3, 2), Point(4, 3), Point(3, 4), Point(4, 4)}
    ensures forall p3 :: p3 in clear ==> !HiddenBySome(ExampleMap(), Point(4, 4), p3)
  {
  }

  /** The map seen from (4, 4): 8 visible asteroids and the hidden ones. */
  lemma Seen44Parts(clear: set<Point>, hidden: set<Point>)
    requires clear == {Point(1, 0), Point(0, 2), Point(1, 2), Point(2, 2), Point(3, 2), Point(4, 3), Point(3, 4), Point(4, 4)}
    requires hidden == {Point(4, 0), Point(4, 2)}
    ensures |clear| == 8 && ExampleMap() == clear + hidden
  {
  }

  /** Each asteroid hidden from (4, 4) has a visible one in front of it. */
  lemma Seen44Shade(clear: set<Point>, hidden: set<Point>)
    requires clear == {Point(1, 0), Point(0, 2), Point(1, 2), Point(2, 2), Point(3, 2), Point(4, 3), Point(3, 4), Point(4, 4)}
    requires hidden == {Point(4, 0), Point(4, 2)}
    ensures forall h :: h in hidden ==> exists r :: r in clear && r != Point(4, 4) && r != h && Between(r, Point(4, 4), h)
  {
    forall h | h in hidden
      ensures exists r :: r in clear && r != Point(4, 4) && r != h && Between(r, Point(4, 4), h)
    {
      if h == Point(4, 0) {
        assert Between(Point(4, 3), Point(4, 4), h);
      } else if h == Point(4, 2) {
        assert Between(Point(4, 3), Point(4, 4), h);
      }
    }
  }

  /** The visible sets from the stations of the test map: (3, 4) sees 9 asteroids, every other station at most 8. */
  lemma ExampleCounts(sets: map<Point, set<Point>>)
    requires forall q :: q in ExampleMap() ==> q in sets && VisibleSet(ExampleMap(), q, sets[q])
    ensures Point(3, 4) in sets && |sets[Point(3, 4)]| == 9
    ensures forall q :: q in ExampleMap() && q != Point(3, 4) ==> |sets[q]| <= 8
  {
    Seen34(sets[Point(3, 4)]);
    forall q | q in ExampleMap() && q != Point(3, 4)
      ensures |sets[q]| <= 8
    {
      if q == Point(1, 0) {
        Seen10(sets[q]);
      } else if q == Point(4, 0) {
        Seen40(sets[q]);
      } else if q == Point(0, 2) {
        Seen02(sets[q]);
      } else if q == Point(1, 2) {
        Seen12(sets[q]);
      } else if q == Point(2, 2) {
        Seen22(sets[q]);
      } else if q == Point(3, 2) {
        Seen32(sets[q]);
      } else if q == Point(4, 2) {
        Seen42(sets[q]);
      } else if q == Point(4, 3) {
        Seen43(sets[q]);
      } else if q == Point(4, 4) {
        Seen44(sets[q]);
      }
    }
  }

  /** The asteroids of a row of five characters, one column at a time. */
  lemma RowOfFive(line: string, y: nat)
    requires |line| == 5
    ensures RowAsteroids(line, 0, y) ==
      (if line[0] == '#' then {Point(0, y)} else {}) + (if line[1] == '#' then {Point(1, y)} else {}) +
      (if line[2] == '#' then {Point(2, y)} else {}) + (if line[3] == '#' then {Point(3, y)} else {}) +
      (if line[4] == '#' then {Point(4, y)} else {})
  {
    var l1, l2, l3, l4 := line[1..], line[2..], line[3..], line[4..];
    assert l4[1..] == [] && l3[1..] == l4 && l2[1..] == l3 && l1[1..] == l2;
    assert RowAsteroids(l4, 4, y) == (if line[4] == '#' then {Point(4, y)} else {});
    assert RowAsteroids(l3, 3, y) == (if line[3] == '#' then {Point(3, y)} else {}) + RowAsteroids(l4, 4, y);
    assert RowAsteroids(l2, 2, y) == (if line[2] == '#' then {Point(2, y)} else {}) + RowAsteroids(l3, 3, y);
    assert RowAsteroids(l1, 1, y) == (if line[1] == '#' then {Point(1, y)} else {}) + RowAsteroids(l2, 2, y);
  }

  /** The asteroids of five lines, one row at a time. */
  lemma RowsOfFive(ls: seq<string>)
    requires |ls| == 5
    ensures RowsAsteroids(ls, 0) ==
      RowAsteroids(ls[0], 0, 0) + RowAsteroids(ls[1], 0, 1) + RowAsteroids(ls[2], 0, 2) + RowAsteroids(ls[3], 0, 3) + RowAsteroids(ls[4], 0, 4)
  {
    var l1, l2, l3, l4 := ls[1..], ls[2..], ls[3..], ls[4..];
    assert l4[1..] == [] && l3[1..] == l4 && l2[1..] == l3 && l1[1..] == l2;
    assert RowsAsteroids(l4, 4) == RowAsteroids(ls[4], 0, 4);
    assert RowsAsteroids(l3, 3) == RowAsteroids(ls[3], 0, 3) + RowsAsteroids(l4, 4);
    assert RowsAsteroids(l2, 2) == RowAsteroids(ls[2], 0, 2) + RowsAsteroids(l3, 3);
    assert RowsAsteroids(l1, 1) == RowAsteroids(ls[1], 0, 1) + RowsAsteroids(l2, 2);
  }

  /** The asteroids of one line of the test map's text. */
  lemma ExampleRow(line: string, y: nat, ps: set<Point>)
    requires (y == 0 && line == ".#..#" && ps == {Point(1, 0), Point(4, 0)})
      || (y == 1 && line == "....." && ps == {})
      || (y == 2 && line == "#####" && ps == {Point(0, 2), Point(1, 2), Point(2, 2), Point(3, 2), Point(4, 2)})
      || (y == 3 && line == "....#" && ps == {Point(4, 3)})
      || (y == 4 && line == "...##" && ps == {Point(3, 4), Point(4, 4)})
    ensures RowAsteroids(line, 0, y) == ps
  {
    RowOfFive(line, y);
  }

  /** The test map, row by row. */
  lemma ExampleByRows()
    ensures ExampleMap() == {Point(1, 0), Point(4, 0)} + {} + {Point(0, 2), Point(1, 2), Point(2, 2), Point(3, 2), Point(4, 2)} + {Point(4, 3)} + {Point(3, 4), Point(4, 4)}
  {
  }

  /** The asteroids of the test map's text. */
  lemma ExampleRows(ls: seq<string>)
    requires |ls| == 5 && ls[0] == ".#..#" && ls[1] == "....." && ls[2] == "#####" && ls[3] == "....#" && ls[4] == "...##"
    ensures RowsAsteroids(ls, 0) == ExampleMap()
  {
    RowsOfFive(ls);
    ExampleRow(ls[0], 0, {Point(1, 0), Point(4, 0)});
    ExampleRow(ls[1], 1, {});
    ExampleRow(ls[2], 2, {Point(0, 2), Point(1, 2), Point(2, 2), Point(3, 2), Point(4, 2)});
    ExampleRow(ls[3], 3, {Point(4, 3)});
    ExampleRow(ls[4], 4, {Point(3, 4), Point(4, 4)});
    ExampleByRows();
  }

  /** The test map's text is its five rows joined with line feeds. */
  lemma ExampleJoin(ls: seq<string>)
    requires |ls| == 5 && ls[0] == ".#..#" && ls[1] == "....." && ls[2] == "#####" && ls[3] == "....#" && ls[4] == "...##"
    ensures Join(ls, '\n') == ExampleText()
  {
    var l1, l2, l3, l4 := ls[1..], ls[2..], ls[3..], ls[4..];
    assert l3[1..] == l4 && l2[1..] == l3 && l1[1..] == l2;
    assert Join(l4, '\n') == ls[4];
    assert Join(l3, '\n') == ls[3] + "\n" + ls[4];
    assert Join(l2, '\n') == ls[2] + "\n" + ls[3] + "\n" + ls[4];
    assert Join(l1, '\n') == ls[1] + "\n" + ls[2] + "\n" + ls[3] + "\n" + ls[4];
  }

  /** `Map::from_str` on the text of the unit tests gives the test map. */
  lemma ExampleParses()
    ensures FromStr(ExampleText()) == Ok(ExampleMap())
  {
    var ls := [".#..#", ".....", "#####", "....#", "...##"];
    ExampleJoin(ls);
    LinesOfJoin(ls);
    ExampleRows(ls);
  }

  /** The size of the visible set from an asteroid of the test map, the station included. */
  method VisibleCount(p: Point) returns (n: nat)
    requires p in ExampleMap()
    ensures n == if p == Point(0, 2) then 7 else if p == Point(4, 2) then 6 else if p == Point(3, 4) then 9 else 8
  {
    var v := VisibleFrom(ExampleMap(), p);
    if p == Point(1, 0) {
      Seen10(v);
    } else if p == Point(4, 0) {
      Seen40(v);
    } else if p == Point(0, 2) {
      Seen02(v);
    } else if p == Point(1, 2) {
      Seen12(v);
    } else if p == Point(2, 2) {
      Seen22(v);
    } else if p == Point(3, 2) {
      Seen32(v);
    } else if p == Point(4, 2) {
      Seen42(v);
    } else if p == Point(4, 3) {
      Seen43(v);
    } else if p == Point(3, 4) {
      Seen34(v);
    } else if p == Point(4, 4) {
      Seen44(v);
    }
    n := |v|;
  }

  /** `test_visible_from`: the sizes of the visible sets from the ten asteroids of the test map, in the order the test asks. */
  method TestVisibleFrom() returns (counts: seq<nat>)
    ensures counts == [8, 8, 7, 8, 8, 8, 6, 8, 9, 8]
  {
    counts := [];
    var n10 := VisibleCount(Point(1, 0));
    counts := counts + [n10];
    var n40 := VisibleCount(Point(4, 0));
    counts := counts + [n40];
    var n02 := VisibleCount(Point(0, 2));
    counts := counts + [n02];
    var n12 := VisibleCount(Point(1, 2));
    counts := counts + [n12];
    var n22 := VisibleCount(Point(2, 2));
    counts := counts + [n22];
    var n32 := VisibleCount(Point(3, 2));
    counts := counts + [n32];
    var n42 := VisibleCount(Point(4, 2));
    counts := counts + [n42];
    var n43 := VisibleCount(Point(4, 3));
    counts := counts + [n43];
    var n34 := VisibleCount(Point(3, 4));
    counts := counts + [n34];
    var n44 := VisibleCount(Point(4, 4));
    counts := counts + [n44];
  }

  /** Reads the test map from its text. */
  method ParseExample() returns (m: set<Point>)
    ensures m == ExampleMap()
  {
    var r := FromStr(ExampleText());
    ExampleParses();
    m := r.value;
  }

  /** `test01`, first map: parsed from its text, the best station is (3, 4), which sees 8 other asteroids. */
  method Part1Example() returns (best: Option<(Point, nat)>)
    ensures best == Some((Point(3, 4), 8))
  {
    var m := ParseExample();
    ghost var sets;
    best, sets := Part1(m);
    ExampleCounts(sets);
  }

  // ---------------------------------------------------------------------------
  // A small map
  // ---------------------------------------------------------------------------

  /** Three asteroids on a diagonal. */
  function Diagonal(): set<Point>
  {
    {Point(0, 0), Point(1, 1), Point(2, 2)}
  }

  /**
   * From the corner of the diagonal, whatever order the rounds take, the
   * middle asteroid is visible and hides the far one.
   */
  lemma DiagonalFromCorner(v: set<Point>)
    requires VisibleSet(Diagonal(), Point(0, 0), v)
    ensures v == {Point(0, 0), Point(1, 1)}
  {
    var o, a, b := Point(0, 0), Point(1, 1), Point(2, 2);
    MiddleNotHidden();
    assert a in v;
    FarBehindMiddle();
    assert b !in v;
    assert v <= {o, a, b};
  }

  /** The far end of the diagonal is not between the corner and the middle, so nothing hides the middle. */
  lemma MiddleNotHidden()
    ensures !HiddenBySome(Diagonal(), Point(0, 0), Point(1, 1))
  {
    FarNotBetween();
    forall p2 | p2 in Diagonal() && p2 != Point(0, 0) && p2 != Point(1, 1)
      ensures !Between(p2, Point(0, 0), Point(1, 1))
    {
      assert p2 == Point(2, 2);
    }
  }

  /** The far end of the diagonal lies beyond the middle as seen from the corner. */
  lemma FarNotBetween()
    ensures !Between(Point(2, 2), Point(0, 0), Point(1, 1))
  {
    InRangeMeans(0, 2, 1);
  }

  /** The middle of the diagonal lies between the corner and the far end. */
  lemma FarBehindMiddle()
    ensures Between(Point(1, 1), Point(0, 0), Point(2, 2))
  {
  }
}
