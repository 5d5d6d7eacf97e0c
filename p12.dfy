/**
 * Day 12 (src/p12.rs): moons pulling on each other.  Every moon has a
 * position and a velocity in three dimensions.  One step first changes each
 * moon's velocity by one unit per axis towards every other moon, then moves
 * each moon by its velocity.  The energy of a moon is its potential energy
 * (sum of absolute coordinates) times its kinetic energy (the same for the
 * velocity).
 */
module P12 {
  import opened Wrappers
  import opened Text
  import opened Arith

  /** `cmp`: the unit pull of `y` on `x` along one axis. */
  function Cmp(x: int, y: int): (c: int)
    ensures c == 1 <==> x < y
    ensures c == -1 <==> x > y
    ensures c == 0 <==> x == y
  {
    if x > y then -1 else if x < y then 1 else 0
  }

  /** The pull is mutual: `x` pulls `y` exactly the opposite way. */
  lemma CmpAntisymmetric(x: int, y: int)
    ensures Cmp(x, y) == -Cmp(y, x)
  {
  }

  // ---------------------------------------------------------------------
  // Greatest common divisor and least common multiple (u64 in the source;
  // no overflow is modelled)
  // ---------------------------------------------------------------------

  function Mul(a: int, b: int): int { a * b }

  /** `d` divides `n`. */
  ghost predicate Divides(d: nat, n: nat)
  {
    exists k: nat :: n == Mul(d, k)
  }

  /** `gcd`: Euclid's algorithm by remainders. */
  function Gcd(x: nat, y: nat): (g: nat)
    ensures x > 0 || y > 0 ==> g > 0
    decreases x
  {
    if x == 0 then y else Gcd(y % x, x)
  }

  lemma DividesZero(d: nat)
    ensures Divides(d, 0)
  {
    assert 0 == Mul(d, 0);
  }

  lemma DividesSelf(d: nat)
    ensures Divides(d, d)
  {
    assert d == Mul(d, 1);
  }

  /** A common divisor of `x` and `y % x` divides `y`. */
  lemma DividesFromRemainder(g: nat, x: nat, y: nat)
    requires x > 0 && Divides(g, y % x) && Divides(g, x)
    ensures Divides(g, y)
  {
    var kr: nat :| y % x == Mul(g, kr);
    var kx: nat :| x == Mul(g, kx);
    var q: nat := y / x;
    assert y == x * q + y % x;
    assert y == g * (kx * q + kr) by {
      assert g * (kx * q + kr) == (g * kx) * q + g * kr;
    }
    assert y == Mul(g, kx * q + kr);
  }

  /** A common divisor of `x` and `y` divides `y % x`. */
  lemma DividesRemainder(d: nat, x: nat, y: nat)
    requires x > 0 && Divides(d, x) && Divides(d, y)
    ensures Divides(d, y % x)
  {
    var kx: nat :| x == Mul(d, kx);
    var ky: nat :| y == Mul(d, ky);
    var q: nat := y / x;
    assert y % x == y - x * q;
    var k: int := ky - kx * q;
    assert y % x == d * k by {
      assert d * (ky - kx * q) == d * ky - (d * kx) * q;
    }
    if k < 0 {
      assert d * (-k) == -(d * k);
      MulAtLeast(d, -k);
    }
    assert y % x == Mul(d, k as nat);
  }

  /** The result divides both arguments. */
  lemma {:induction false} GcdDivides(x: nat, y: nat)
    ensures Divides(Gcd(x, y), x) && Divides(Gcd(x, y), y)
    decreases x
  {
    if x == 0 {
      DividesZero(y);
      DividesSelf(y);
    } else {
      GcdDivides(y % x, x);
      DividesFromRemainder(Gcd(x, y), x, y);
    }
  }

  /** Every common divisor of the arguments divides the result, so it is the greatest. */
  lemma {:induction false} GcdGreatest(x: nat, y: nat, d: nat)
    requires Divides(d, x) && Divides(d, y)
    ensures Divides(d, Gcd(x, y))
    decreases x
  {
    if x != 0 {
      DividesRemainder(d, x, y);
      GcdGreatest(y % x, x, d);
    }
  }

  /** `lcm` divides by the gcd, which is zero only when both arguments are. */
  function Lcm(x: nat, y: nat): (m: nat)
    requires x > 0 || y > 0
  {
    (x * y) / Gcd(x, y)
  }

  /** The product of `g*a` and `g*b` divided by `g`, regrouped. */
  lemma ProductOverFactor(g: nat, a: nat, b: nat)
    requires g > 0
    ensures ((g * a) * (g * b)) / g == a * (g * b)
    ensures a * (g * b) == (g * a) * b
    ensures (a * (g * b)) * g == (g * a) * (g * b)
  {
    assert (g * a) * (g * b) == g * (a * (g * b));
    DivUnique((g * a) * (g * b), g, a * (g * b), 0);
  }

  /** The result is a common multiple, and times the gcd it is the product of the arguments. */
  lemma LcmIsCommonMultiple(x: nat, y: nat)
    requires x > 0 || y > 0
    ensures Divides(x, Lcm(x, y)) && Divides(y, Lcm(x, y))
    ensures Lcm(x, y) * Gcd(x, y) == x * y
  {
    var g := Gcd(x, y);
    GcdDivides(x, y);
    var a: nat :| x == Mul(g, a);
    var b: nat :| y == Mul(g, b);
    ProductOverFactor(g, a, b);
    assert Lcm(x, y) == Mul(y, a);
    assert Lcm(x, y) == Mul(x, b);
  }

  // ---------------------------------------------------------------------
  // Points and vectors
  // ---------------------------------------------------------------------

  /** `Point`, also used as `Vector` for velocities. */
  datatype Point = Point(x: int, y: int, z: int)

  /** `Point::default`, the origin. */
  function Zero(): Point { Point(0, 0, 0) }

  /** `Point + Point`, and `+=`, which the source writes out the same way. */
  function Add(p: Point, q: Point): Point
  {
    Point(p.x + q.x, p.y + q.y, p.z + q.z)
  }

  function Negate(p: Point): Point
  {
    Point(-p.x, -p.y, -p.z)
  }

  /** Addition is commutative and associative, and the origin is its identity. */
  lemma AddLaws(p: Point, q: Point, r: Point)
    ensures Add(p, q) == Add(q, p)
    ensures Add(Add(p, q), r) == Add(p, Add(q, r))
    ensures Add(p, Zero()) == p && Add(Zero(), p) == p
    ensures Add(p, Negate(p)) == Zero()
  {
  }

  /** `Sum for Point`: a left fold of `+` from the origin. */
  function SumPoints(ps: seq<Point>): Point
    decreases |ps|
  {
    if |ps| == 0 then Zero() else Add(SumPoints(ps[..|ps| - 1]), ps[|ps| - 1])
  }

  /** The sum of a concatenation is the sum of the sums, so the fold's order does not matter for the total. */
  lemma {:induction false} SumPointsAppend(a: seq<Point>, b: seq<Point>)
    ensures SumPoints(a + b) == Add(SumPoints(a), SumPoints(b))
    decreases |b|
  {
    if |b| == 0 {
      assert a + b == a;
      assert SumPoints(b) == Zero();
    } else {
      var c := a + b;
      var b0 := b[..|b| - 1];
      assert c[..|c| - 1] == a + b0 && c[|c| - 1] == b[|b| - 1];
      SumPointsAppend(a, b0);
      assert SumPoints(c) == Add(SumPoints(a + b0), b[|b| - 1]);
      assert SumPoints(b) == Add(SumPoints(b0), b[|b| - 1]);
    }
  }

  /** `Point::cmp`: the pull of `other` on `p`, one unit or none on each axis. */
  function PointCmp(p: Point, other: Point): Point
  {
    Point(Cmp(p.x, other.x), Cmp(p.y, other.y), Cmp(p.z, other.z))
  }

  /** Two points pull each other in opposite directions, and a point does not pull itself. */
  lemma PointCmpAntisymmetric(p: Point, q: Point)
    ensures PointCmp(p, q) == Negate(PointCmp(q, p))
    ensures PointCmp(p, p) == Zero()
  {
  }

  function Abs(v: int): nat
  {
    if v < 0 then -v else v
  }

  /** `Point::abs_sum`: the distance from the origin along the axes. */
  function AbsSum(p: Point): (n: nat)
    ensures n == 0 <==> p == Zero()
    ensures n >= Abs(p.x) && n >= Abs(p.y) && n >= Abs(p.z)
  {
    Abs(p.x) + Abs(p.y) + Abs(p.z)
  }

  // ---------------------------------------------------------------------
  // Parsing `<x=.., y=.., z=..>`
  // ---------------------------------------------------------------------

  predicate IsAngle(c: char) { c == '<' || c == '>' }

  function TrimAnglesStart(s: string): (r: string)
    ensures |r| <= |s|
    ensures |r| == 0 || !IsAngle(r[0])
    ensures r == s[|s| - |r|..]
    decreases |s|
  {
    if |s| > 0 && IsAngle(s[0]) then TrimAnglesStart(s[1..]) else s
  }

  function TrimAnglesEnd(s: string): (r: string)
    ensures |r| <= |s|
    ensures |r| == 0 || !IsAngle(r[|r| - 1])
    ensures r == s[..|r|]
    decreases |s|
  {
    if |s| > 0 && IsAngle(s[|s| - 1]) then TrimAnglesEnd(s[..|s| - 1]) else s
  }

  /** `trim_matches(&['<', '>'])`: the text without any run of angle brackets at either end. */
  function TrimAngles(s: string): (r: string)
    ensures |r| == 0 || (!IsAngle(r[0]) && !IsAngle(r[|r| - 1]))
  {
    TrimAnglesEnd(TrimAnglesStart(s))
  }

  /** One component `name=value`: the text after the first `=`, read as an `i64`. */
  function Field(comp: string): (r: Result<int, string>)
    ensures r.Ok? ==> IsI64(r.value)
  {
    var parts := Split(comp, '=');
    if |parts| < 2 then
      Err("Bad field " + comp)
    else
      match ParseI64(parts[1])
      case None => Err("Bad int " + parts[1])
      case Some(v) => Ok(v)
  }

  /** A component without `=` is reported whole as a bad field. */
  lemma FieldWithoutEquals(comp: string)
    requires '=' !in comp
    ensures Field(comp) == Err("Bad field " + comp)
  {
    SplitNoSep(comp, '=');
  }

  /** A component whose value is not an `i64` is reported by its value text. */
  lemma FieldBadInt(name: string, value: string)
    requires '=' !in name && '=' !in value && ParseI64(value).None?
    ensures Field(name + "=" + value) == Err("Bad int " + value)
  {
    SplitPiece(name, '=', value);
    SplitNoSep(value, '=');
  }

  /** `collect::<Result<Vec<_>, _>>()` over the components: every value, or the first error. */
  function Fields(comps: seq<string>): (r: Result<seq<int>, string>)
    ensures r.Ok? <==> forall i :: 0 <= i < |comps| ==> Field(comps[i]).Ok?
    ensures r.Ok? ==> |r.value| == |comps| && forall i :: 0 <= i < |comps| ==> r.value[i] == Field(comps[i]).value
    decreases |comps|
  {
    if |comps| == 0 then Ok([])
    else
      match Field(comps[0])
      case Err(e) => Err(e)
      case Ok(v) =>
        match Fields(comps[1..])
        case Err(e) => Err(e)
        case Ok(vs) =>
          assert forall i :: 1 <= i < |comps| ==> comps[i] == comps[1..][i - 1];
          Ok([v] + vs)
  }

  /** Component `i` is the first that fails to parse. */
  ghost predicate FirstError(comps: seq<string>, i: nat)
  {
    i < |comps| && Field(comps[i]).Err? && forall j :: 0 <= j < i ==> Field(comps[j]).Ok?
  }

  /** A failed collection reports the error of the first component that fails. */
  lemma {:induction false} FieldsFirstError(comps: seq<string>)
    requires Fields(comps).Err?
    ensures exists i: nat :: i < |comps| && FirstError(comps, i) && Fields(comps).error == Field(comps[i]).error
    decreases |comps|
  {
    if Field(comps[0]).Err? {
      assert FirstError(comps, 0);
    } else {
      FieldsFirstError(comps[1..]);
      var i: nat :| i < |comps[1..]| && FirstError(comps[1..], i) && Fields(comps[1..]).error == Field(comps[1..][i]).error;
      assert forall j :: 1 <= j <= i + 1 ==> comps[j] == comps[1..][j - 1];
      assert FirstError(comps, i + 1);
    }
  }

  /** Text whose components all parse has at least three; fewer makes the source index out of bounds. */
  predicate HasThreeFields(s: string)
  {
    var f := Fields(Split(TrimAngles(s), ','));
    f.Ok? ==> |f.value| >= 3
  }

  /** `Point::from_str`: the first three values of the comma-separated components, or the first error. */
  function ParsePoint(s: string): (r: Result<Point, string>)
    requires HasThreeFields(s)
    ensures r.Ok? <==> Fields(Split(TrimAngles(s), ',')).Ok?
    ensures r.Err? ==> r.error == Fields(Split(TrimAngles(s), ',')).error
  {
    match Fields(Split(TrimAngles(s), ','))
    case Err(e) => Err(e)
    case Ok(vs) => Ok(Point(vs[0], vs[1], vs[2]))
  }

  /** The puzzle's own rendering of a point, the format `ParsePoint` reads. */
  function ShowPoint(p: Point): string
  {
    "<" + ShowField("x", p.x) + "," + ShowField(" y", p.y) + "," + ShowField(" z", p.z) + ">"
  }

  /** One printed component, `name=value`. */
  function ShowField(name: string, v: int): string
  {
    name + "=" + IntToString(v)
  }

  predicate IsI64Point(p: Point) { IsI64(p.x) && IsI64(p.y) && IsI64(p.z) }

  /** A printed integer is a sign and digits, ending in a digit. */
  lemma IntStringChars(v: int)
    ensures forall i :: 0 <= i < |IntToString(v)| ==> IntToString(v)[i] == '-' || IsDigit(IntToString(v)[i])
    ensures IsDigit(IntToString(v)[|IntToString(v)| - 1])
  {
    var s := IntToString(v);
    if v < 0 {
      var t := NatToString(-v);
      assert s == "-" + t;
      assert forall i :: 1 <= i < |s| ==> s[i] == t[i - 1];
    }
  }

  /** A printed component `name=value` reads back as its value. */
  lemma FieldOfShown(name: string, v: int)
    requires IsI64(v) && '=' !in name
    ensures Field(ShowField(name, v)) == Ok(v)
  {
    var s := IntToString(v);
    IntStringChars(v);
    assert '=' !in s;
    SplitPiece(name, '=', s);
    SplitNoSep(s, '=');
    ParseI64OfToString(v);
  }

  /** Brackets around a text that neither starts nor ends with one are trimmed off exactly. */
  lemma TrimBracketed(inner: string)
    requires |inner| > 0 && !IsAngle(inner[0]) && !IsAngle(inner[|inner| - 1])
    ensures TrimAngles("<" + inner + ">") == inner
  {
    var s := "<" + inner + ">";
    var t := inner + ">";
    assert s[0] == '<' && s[1..] == t;
    assert TrimAnglesStart(s) == TrimAnglesStart(t);
    assert t[0] == inner[0];
    assert TrimAnglesStart(t) == t;
    assert t[|t| - 1] == '>' && t[..|t| - 1] == inner;
    assert TrimAnglesEnd(t) == TrimAnglesEnd(inner);
  }

  /** Three comma-free components joined by commas split back into the three. */
  lemma SplitThree(a: string, b: string, c: string)
    requires ',' !in a && ',' !in b && ',' !in c
    ensures Split(a + "," + b + "," + c, ',') == [a, b, c]
  {
    var pieces := [a, b, c];
    assert pieces[1..] == [b, c] && pieces[1..][1..] == [c];
    assert Join([b, c], ',') == b + [','] + c;
    assert Join(pieces, ',') == a + [','] + (b + [','] + c);
    assert a + "," + b + "," + c == a + [','] + (b + [','] + c);
    SplitJoin(pieces, ',');
  }

  /** Collecting three components: their values when all parse, else the first error. */
  lemma FieldsThree(a: string, b: string, c: string)
    ensures Fields([a, b, c]) ==
      if Field(a).Err? then Err(Field(a).error)
      else if Field(b).Err? then Err(Field(b).error)
      else if Field(c).Err? then Err(Field(c).error)
      else Ok([Field(a).value, Field(b).value, Field(c).value])
  {
    var empty: seq<string> := [];
    assert Fields(empty) == Ok([]);
    assert [c][0] == c && [c][1..] == empty;
    if Field(c).Ok? {
      assert [Field(c).value] + [] == [Field(c).value];
    }
    assert Fields([c]) == if Field(c).Err? then Err(Field(c).error) else Ok([Field(c).value]);
    assert [b, c][0] == b && [b, c][1..] == [c];
    if Field(b).Ok? && Field(c).Ok? {
      assert [Field(b).value] + [Field(c).value] == [Field(b).value, Field(c).value];
    }
    assert Fields([b, c]) ==
      if Field(b).Err? then Err(Field(b).error)
      else if Field(c).Err? then Err(Field(c).error)
      else Ok([Field(b).value, Field(c).value]);
    assert [a, b, c][0] == a && [a, b, c][1..] == [b, c];
    if Field(a).Ok? && Field(b).Ok? && Field(c).Ok? {
      assert [Field(a).value] + [Field(b).value, Field(c).value] == [Field(a).value, Field(b).value, Field(c).value];
    }
  }

  /** A printed component contains no comma. */
  lemma ShownNoComma(name: string, v: int)
    requires ',' !in name
    ensures ',' !in ShowField(name, v)
  {
    IntStringChars(v);
  }

  /** The components of a bracketed text of three comma-free components. */
  lemma ComponentsOfThree(s: string, a: string, b: string, c: string)
    requires |a| > 0 && |c| > 0 && !IsAngle(a[0]) && !IsAngle(c[|c| - 1])
    requires ',' !in a && ',' !in b && ',' !in c
    requires s == "<" + (a + "," + b + "," + c) + ">"
    ensures Split(TrimAngles(s), ',') == [a, b, c]
  {
    var inner := a + "," + b + "," + c;
    assert inner[0] == a[0] && inner[|inner| - 1] == c[|c| - 1];
    TrimBracketed(inner);
    SplitThree(a, b, c);
  }

  /** A printed point is its three printed components, comma-joined and bracketed. */
  lemma ShowPointJoins(p: Point)
    ensures ShowPoint(p) == "<" + (ShowField("x", p.x) + "," + ShowField(" y", p.y) + "," + ShowField(" z", p.z)) + ">"
  {
  }

  /** A printed component starts with its name and ends with a digit, so with no angle bracket either side. */
  lemma ShownEnds(name: string, v: int)
    requires |name| > 0 && !IsAngle(name[0]) && ',' !in name
    ensures var f := ShowField(name, v); |f| > 0 && !IsAngle(f[0]) && !IsAngle(f[|f| - 1]) && ',' !in f
  {
    var f := ShowField(name, v);
    IntStringChars(v);
    assert f[0] == name[0];
    assert f[|f| - 1] == IntToString(v)[|IntToString(v)| - 1];
    ShownNoComma(name, v);
  }

  /** The text of a printed point is its three printed components. */
  lemma ComponentsOfShown(p: Point)
    ensures Split(TrimAngles(ShowPoint(p)), ',') == [ShowField("x", p.x), ShowField(" y", p.y), ShowField(" z", p.z)]
  {
    ShownEnds("x", p.x);
    ShownEnds(" y", p.y);
    ShownEnds(" z", p.z);
    ShowPointJoins(p);
    ComponentsOfThree(ShowPoint(p), ShowField("x", p.x), ShowField(" y", p.y), ShowField(" z", p.z));
  }

  /**
   * A bracketed text of three comma-free components parses to the point of
   * their values, or fails with the error of the first that does not parse.
   */
  lemma ParsePointOfComponents(s: string, a: string, b: string, c: string)
    requires |a| > 0 && |c| > 0 && !IsAngle(a[0]) && !IsAngle(c[|c| - 1])
    requires ',' !in a && ',' !in b && ',' !in c
    requires s == "<" + (a + "," + b + "," + c) + ">"
    ensures HasThreeFields(s)
    ensures ParsePoint(s) ==
      if Field(a).Err? then Err(Field(a).error)
      else if Field(b).Err? then Err(Field(b).error)
      else if Field(c).Err? then Err(Field(c).error)
      else Ok(Point(Field(a).value, Field(b).value, Field(c).value))
  {
    ComponentsOfThree(s, a, b, c);
    FieldsThree(a, b, c);
  }

  /** Every point with `i64` coordinates survives printing and parsing. */
  lemma ParseShowPoint(p: Point)
    requires IsI64Point(p)
    ensures HasThreeFields(ShowPoint(p)) && ParsePoint(ShowPoint(p)) == Ok(p)
  {
    ComponentsOfShown(p);
    FieldOfShown("x", p.x);
    FieldOfShown(" y", p.y);
    FieldOfShown(" z", p.z);
    FieldsThree(ShowField("x", p.x), ShowField(" y", p.y), ShowField(" z", p.z));
  }

  // ---------------------------------------------------------------------
  // Moons
  // ---------------------------------------------------------------------

  datatype Body = Body(pos: Point, vel: Point)

  /** `Body::new`: a moon at rest at `pos`. */
  function NewBody(pos: Point): (b: Body)
    ensures b.pos == pos && Kinetic(b) == 0 && Energy(b) == 0
  {
    Body(pos, Zero())
  }

  function Potential(b: Body): nat { AbsSum(b.pos) }

  function Kinetic(b: Body): nat { AbsSum(b.vel) }

  /** `Body::energy`: potential times kinetic energy. */
  function Energy(b: Body): (e: nat)
    ensures e == 0 <==> b.pos == Zero() || b.vel == Zero()
  {
    var e := Potential(b) * Kinetic(b);
    ProductZero(Potential(b), Kinetic(b));
    e
  }

  lemma ProductZero(a: nat, b: nat)
    ensures a * b == 0 <==> a == 0 || b == 0
  {
    if a > 0 && b > 0 {
      MulAtLeast(a, b);
    }
  }

  /** `Body::step`: move by the velocity. */
  function Moved(b: Body): (r: Body)
    ensures r.vel == b.vel && r.pos == Add(b.pos, b.vel)
  {
    Body(Add(b.pos, b.vel), b.vel)
  }

  /** The pull of moon `j` on moon `i`: `cmp_pos`. */
  function Pull(ms: seq<Body>, i: nat, j: nat): Point
    requires i < |ms| && j < |ms|
  {
    PointCmp(ms[i].pos, ms[j].pos)
  }

  /** The summed pull of moons `0..n` on moon `i`: the inner `sum` of `step`. */
  function Row(ms: seq<Body>, i: nat, n: nat): Point
    requires i < |ms| && n <= |ms|
    decreases n
  {
    if n == 0 then Zero() else Add(Row(ms, i, n - 1), Pull(ms, i, n - 1))
  }

  /** The pulls of moons `0..n` on moon `i`, in order. */
  function Pulls(ms: seq<Body>, i: nat, n: nat): (ps: seq<Point>)
    requires i < |ms| && n <= |ms|
    ensures |ps| == n && forall j :: 0 <= j < n ==> ps[j] == Pull(ms, i, j)
  {
    seq(n, j requires 0 <= j < n => Pull(ms, i, j))
  }

  /** The inner fold is the `Sum` of the pulls. */
  lemma {:induction false} RowIsSum(ms: seq<Body>, i: nat, n: nat)
    requires i < |ms| && n <= |ms|
    ensures Row(ms, i, n) == SumPoints(Pulls(ms, i, n))
    decreases n
  {
    if n > 0 {
      RowIsSum(ms, i, n - 1);
      var ps := Pulls(ms, i, n);
      assert ps[..n - 1] == Pulls(ms, i, n - 1);
      assert SumPoints(ps) == Add(SumPoints(ps[..n - 1]), ps[n - 1]);
    }
  }

  /** Moon `i` after the pulls of all the moons change its velocity. */
  function Pulled(ms: seq<Body>, i: nat): (b: Body)
    requires i < |ms|
    ensures b.pos == ms[i].pos && b.vel == Add(ms[i].vel, Row(ms, i, |ms|))
  {
    ms[i].(vel := Add(ms[i].vel, Row(ms, i, |ms|)))
  }

  /** Every moon's velocity after gravity, before anyone moves. */
  function Gravity(ms: seq<Body>): (r: seq<Body>)
    ensures |r| == |ms| && forall i :: 0 <= i < |ms| ==> r[i] == Pulled(ms, i)
  {
    seq(|ms|, i requires 0 <= i < |ms| => Pulled(ms, i))
  }

  /** Every moon moves by its velocity. */
  function MoveAll(ms: seq<Body>): (r: seq<Body>)
    ensures |r| == |ms| && forall i :: 0 <= i < |ms| ==> r[i] == Moved(ms[i])
  {
    seq(|ms|, i requires 0 <= i < |ms| => Moved(ms[i]))
  }

  /** `step`: gravity on every moon, then every moon moves. */
  function StepAll(ms: seq<Body>): (r: seq<Body>)
    ensures |r| == |ms| && forall i :: 0 <= i < |ms| ==> r[i] == Moved(Pulled(ms, i))
  {
    MoveAll(Gravity(ms))
  }

  /** `step` on a slice of moons, in place: the pulls first, then the velocities, then the moves. */
  method Step(moons: array<Body>)
    modifies moons
    ensures moons[..] == StepAll(old(moons[..]))
  {
    var ms := moons[..];
    var n := moons.Length;
    var diffs := seq(n, i requires 0 <= i < n => Row(ms, i, n));
    for i := 0 to n
      invariant forall k :: 0 <= k < i ==> moons[k] == Pulled(ms, k)
      invariant forall k :: i <= k < n ==> moons[k] == ms[k]
    {
      moons[i] := moons[i].(vel := Add(moons[i].vel, diffs[i]));
    }
    ghost var gs := moons[..];
    assert gs == Gravity(ms);
    for i := 0 to n
      invariant forall k :: 0 <= k < i ==> moons[k] == Moved(gs[k])
      invariant forall k :: i <= k < n ==> moons[k] == gs[k]
    {
      moons[i] := Moved(moons[i]);
    }
    assert moons[..] == MoveAll(gs);
  }

  // ---------------------------------------------------------------------
  // Gravity is mutual: the pulls cancel out
  // ---------------------------------------------------------------------

  /** The summed pull of moon `j` on moons `0..m`. */
  function Col(ms: seq<Body>, j: nat, m: nat): Point
    requires j < |ms| && m <= |ms|
    decreases m
  {
    if m == 0 then Zero() else Add(Col(ms, j, m - 1), Pull(ms, m - 1, j))
  }

  /** The summed pulls of moons `0..n` on moons `0..m`. */
  function Tot(ms: seq<Body>, m: nat, n: nat): Point
    requires m <= |ms| && n <= |ms|
    decreases m
  {
    if m == 0 then Zero() else Add(Tot(ms, m - 1, n), Row(ms, m - 1, n))
  }

  /** What moon `j` receives from moons `0..m` is the opposite of what it gives them. */
  lemma {:induction false} ColIsNegRow(ms: seq<Body>, j: nat, m: nat)
    requires j < |ms| && m <= |ms|
    ensures Col(ms, j, m) == Negate(Row(ms, j, m))
    decreases m
  {
    if m > 0 {
      ColIsNegRow(ms, j, m - 1);
      PointCmpAntisymmetric(ms[m - 1].pos, ms[j].pos);
      var r, q := Row(ms, j, m - 1), Pull(ms, j, m - 1);
      assert Col(ms, j, m) == Add(Negate(r), Negate(q));
      assert Row(ms, j, m) == Add(r, q);
    }
  }

  /** Adding moon `n` to the pullers adds its pull on each of the moons `0..m`. */
  lemma {:induction false} TotExtend(ms: seq<Body>, m: nat, n: nat)
    requires m <= |ms| && n < |ms|
    ensures Tot(ms, m, n + 1) == Add(Tot(ms, m, n), Col(ms, n, m))
    decreases m
  {
    if m > 0 {
      TotExtend(ms, m - 1, n);
      assert Tot(ms, m, n + 1) == Add(Tot(ms, m - 1, n + 1), Row(ms, m - 1, n + 1));
      assert Row(ms, m - 1, n + 1) == Add(Row(ms, m - 1, n), Pull(ms, m - 1, n));
      assert Tot(ms, m, n) == Add(Tot(ms, m - 1, n), Row(ms, m - 1, n));
      assert Col(ms, n, m) == Add(Col(ms, n, m - 1), Pull(ms, m - 1, n));
    } else {
      assert Tot(ms, m, n + 1) == Zero() && Tot(ms, m, n) == Zero() && Col(ms, n, m) == Zero();
    }
  }

  /** Among moons `0..k`, the pulls sum to nothing. */
  lemma {:induction false} PullsCancel(ms: seq<Body>, k: nat)
    requires k <= |ms|
    ensures Tot(ms, k, k) == Zero()
    decreases k
  {
    if k > 0 {
      PullsCancel(ms, k - 1);
      TotExtend(ms, k - 1, k - 1);
      ColIsNegRow(ms, k - 1, k - 1);
      PointCmpAntisymmetric(ms[k - 1].pos, ms[k - 1].pos);
    }
  }

  /** The velocities of moons `0..m`, summed. */
  function VelSum(bs: seq<Body>, m: nat): Point
    requires m <= |bs|
    decreases m
  {
    if m == 0 then Zero() else Add(VelSum(bs, m - 1), bs[m - 1].vel)
  }

  /** The total velocity of all the moons. */
  function Momentum(bs: seq<Body>): Point
  {
    VelSum(bs, |bs|)
  }

  lemma {:induction false} GravityVelSum(ms: seq<Body>, m: nat)
    requires m <= |ms|
    ensures VelSum(Gravity(ms), m) == Add(VelSum(ms, m), Tot(ms, m, |ms|))
    decreases m
  {
    if m > 0 {
      var g := Gravity(ms);
      var row := Row(ms, m - 1, |ms|);
      GravityVelSum(ms, m - 1);
      assert VelSum(g, m) == Add(VelSum(g, m - 1), g[m - 1].vel);
      assert g[m - 1].vel == Add(ms[m - 1].vel, row);
      assert VelSum(ms, m) == Add(VelSum(ms, m - 1), ms[m - 1].vel);
      assert Tot(ms, m, |ms|) == Add(Tot(ms, m - 1, |ms|), row);
    }
  }

  lemma {:induction false} MovedVelSum(ms: seq<Body>, m: nat)
    requires m <= |ms|
    ensures VelSum(StepAll(ms), m) == VelSum(Gravity(ms), m)
    decreases m
  {
    if m > 0 {
      MovedVelSum(ms, m - 1);
    }
  }

  /** A step keeps the total velocity: every pull is matched by an opposite one. */
  lemma StepKeepsMomentum(ms: seq<Body>)
    ensures Momentum(StepAll(ms)) == Momentum(ms)
  {
    MovedVelSum(ms, |ms|);
    GravityVelSum(ms, |ms|);
    PullsCancel(ms, |ms|);
  }

  /** The moons after `k` steps. */
  function Simulate(ms: seq<Body>, k: nat): (r: seq<Body>)
    ensures |r| == |ms|
    decreases k
  {
    if k == 0 then ms else StepAll(Simulate(ms, k - 1))
  }

  /** Any number of steps keeps the total velocity. */
  lemma {:induction false} SimulateKeepsMomentum(ms: seq<Body>, k: nat)
    ensures Momentum(Simulate(ms, k)) == Momentum(ms)
    decreases k
  {
    if k > 0 {
      SimulateKeepsMomentum(ms, k - 1);
      StepKeepsMomentum(Simulate(ms, k - 1));
    }
  }

  /** The energies of moons `0..m`, summed. */
  function EnergySum(bs: seq<Body>, m: nat): nat
    requires m <= |bs|
    decreases m
  {
    if m == 0 then 0 else EnergySum(bs, m - 1) + Energy(bs[m - 1])
  }

  /** The total energy: the `sum` of every moon's energy. */
  function TotalEnergy(bs: seq<Body>): nat
  {
    EnergySum(bs, |bs|)
  }

  /** `part1`: the total energy after `steps` steps, run in place on a copy of the moons. */
  method Part1(moons: seq<Body>, steps: nat) returns (e: nat)
    ensures e == TotalEnergy(Simulate(moons, steps))
  {
    var a := new Body[|moons|](i requires 0 <= i < |moons| => moons[i]);
    assert a[..] == moons;
    for s := 0 to steps
      invariant a[..] == Simulate(moons, s)
    {
      Step(a);
    }
    e := TotalEnergy(a[..]);
  }
}
