/**
 * Day 6 (src/p06.rs): a map from each object to the object it orbits, the
 * number of orbits of an object (its depth), the walk up through its
 * parents, and the number of transfers between two objects through their
 * nearest common parent.
 */
module P06 {
  import opened Wrappers
  import opened Text

  /** `Orbits`: each object mapped to the object it directly orbits. */
  type Orbits = map<string, string>

  // ---------------------------------------------------------------------------
  // Parsing
  // ---------------------------------------------------------------------------

  /** One line of the map, `A)B` meaning that `B` orbits `A`, read as the pair `(B, A)`. */
  function ParseOrbit(line: string): (r: Result<(string, string), string>)
    ensures r.Ok? <==> |Split(line, ')')| == 2
    ensures r.Err? ==> r.error == "Invalid orbit"
  {
    var objs := Split(line, ')');
    if |objs| == 2 then Ok((objs[1], objs[0])) else Err("Invalid orbit")
  }

  /** A line reads as `(child, parent)` exactly when it is `parent`, a `)`, and `child`, neither holding a `)`. */
  lemma ParseOrbitMeans(line: string, child: string, parent: string)
    ensures ParseOrbit(line) == Ok((child, parent)) <==>
      line == parent + ")" + child && ')' !in parent && ')' !in child
  {
    if ParseOrbit(line) == Ok((child, parent)) {
      JoinSplit(line, ')');
      var objs := Split(line, ')');
      assert Join(objs, ')') == objs[0] + [')'] + objs[1];
    }
    if line == parent + ")" + child && ')' !in parent && ')' !in child {
      SplitPiece(parent, ')', child);
      SplitNoSep(child, ')');
    }
  }

  /**
   * `Orbits::from_str` on the lines of the input: every line must read as an
   * orbit, and a later line for the same child replaces an earlier one, as
   * collecting into a `HashMap` does.
   */
  function ParseLines(lines: seq<string>): (r: Result<Orbits, string>)
    ensures r.Err? ==> r.error == "Invalid orbit"
    decreases |lines|
  {
    if |lines| == 0 then Ok(map[])
    else match ParseLines(lines[..|lines| - 1])
      case Err(e) => Err(e)
      case Ok(m) =>
        match ParseOrbit(lines[|lines| - 1])
        case Err(e) => Err(e)
        case Ok((child, parent)) => Ok(m[child := parent])
  }

  /** `Orbits::from_str`. */
  function ParseOrbits(s: string): Result<Orbits, string>
  {
    ParseLines(Lines(s))
  }

  /** The pair line `i` reads as. */
  function OrbitAt(lines: seq<string>, i: nat): (string, string)
    requires i < |lines| && ParseOrbit(lines[i]).Ok?
  {
    ParseOrbit(lines[i]).value
  }

  /** No line after `i` names the same child as line `i`. */
  predicate LastFor(lines: seq<string>, i: nat)
    requires i < |lines| && forall j :: 0 <= j < |lines| ==> ParseOrbit(lines[j]).Ok?
  {
    forall j :: i < j < |lines| ==> OrbitAt(lines, j).0 != OrbitAt(lines, i).0
  }

  /** Parsing succeeds exactly when every line reads as an orbit. */
  lemma {:induction false} ParseLinesOk(lines: seq<string>)
    ensures ParseLines(lines).Ok? <==> forall j :: 0 <= j < |lines| ==> ParseOrbit(lines[j]).Ok?
    decreases |lines|
  {
    if |lines| > 0 {
      var init := lines[..|lines| - 1];
      ParseLinesOk(init);
      assert forall j :: 0 <= j < |init| ==> init[j] == lines[j];
    }
  }

  /** The map holds exactly the children the lines name. */
  lemma {:induction false} ParseLinesKeys(lines: seq<string>)
    requires ParseLines(lines).Ok?
    ensures forall j :: 0 <= j < |lines| ==> ParseOrbit(lines[j]).Ok?
    ensures forall c :: c in ParseLines(lines).value <==> exists j :: 0 <= j < |lines| && OrbitAt(lines, j).0 == c
    decreases |lines|
  {
    ParseLinesOk(lines);
    if |lines| > 0 {
      var init := lines[..|lines| - 1];
      var last := |lines| - 1;
      ParseLinesKeys(init);
      assert forall j :: 0 <= j < |init| ==> init[j] == lines[j];
      var m := ParseLines(init).value;
      assert ParseLines(lines).value == m[OrbitAt(lines, last).0 := OrbitAt(lines, last).1];
      forall c
        ensures c in ParseLines(lines).value <==> exists j :: 0 <= j < |lines| && OrbitAt(lines, j).0 == c
      {
        if c in m {
          var j :| 0 <= j < |init| && OrbitAt(init, j).0 == c;
          assert OrbitAt(lines, j).0 == c;
        }
        if exists j :: 0 <= j < |lines| && OrbitAt(lines, j).0 == c {
          var j :| 0 <= j < |lines| && OrbitAt(lines, j).0 == c;
          if j < last {
            assert OrbitAt(init, j).0 == c;
          }
        }
      }
    }
  }

  /** Each child is mapped to the parent of the last line that names it. */
  lemma {:induction false} ParseLinesLast(lines: seq<string>, j: nat)
    requires ParseLines(lines).Ok? && j < |lines|
    ensures forall i :: 0 <= i < |lines| ==> ParseOrbit(lines[i]).Ok?
    ensures OrbitAt(lines, j).0 in ParseLines(lines).value
    ensures LastFor(lines, j) ==> ParseLines(lines).value[OrbitAt(lines, j).0] == OrbitAt(lines, j).1
    decreases |lines|
  {
    ParseLinesOk(lines);
    var init := lines[..|lines| - 1];
    var last := |lines| - 1;
    assert forall i :: 0 <= i < |init| ==> init[i] == lines[i];
    var m := ParseLines(init).value;
    assert ParseLines(lines).value == m[OrbitAt(lines, last).0 := OrbitAt(lines, last).1];
    if j < last {
      ParseLinesOk(init);
      ParseLinesLast(init, j);
      if LastFor(lines, j) {
        assert OrbitAt(lines, last).0 != OrbitAt(lines, j).0;
        forall i | j < i < |init| ensures OrbitAt(init, i).0 != OrbitAt(init, j).0 {
          assert OrbitAt(init, i) == OrbitAt(lines, i);
        }
      }
    }
  }

  /** An object name that the text of a map can hold: no `)`, no line break. */
  predicate CleanName(name: string)
  {
    ')' !in name && '\n' !in name && '\r' !in name
  }

  /** The line `parent)child` for an orbit `(parent, child)`. */
  function OrbitLine(orbit: (string, string)): string
  {
    orbit.0 + ")" + orbit.1
  }

  /** The lines for a list of orbits. */
  function OrbitLines(orbits: seq<(string, string)>): (ls: seq<string>)
    ensures |ls| == |orbits|
  {
    seq(|orbits|, i requires 0 <= i < |orbits| => OrbitLine(orbits[i]))
  }

  /** The map a list of orbits describes, a later orbit of a child replacing an earlier one. */
  function MapOf(orbits: seq<(string, string)>): Orbits
    decreases |orbits|
  {
    if |orbits| == 0 then map[]
    else MapOf(orbits[..|orbits| - 1])[orbits[|orbits| - 1].1 := orbits[|orbits| - 1].0]
  }

  /** Reading the lines of a list of orbits gives the map the list describes. */
  lemma {:induction false} ParseOrbitLines(orbits: seq<(string, string)>)
    requires forall i :: 0 <= i < |orbits| ==> CleanName(orbits[i].0) && CleanName(orbits[i].1)
    ensures ParseLines(OrbitLines(orbits)) == Ok(MapOf(orbits))
    decreases |orbits|
  {
    if |orbits| > 0 {
      var last := |orbits| - 1;
      var init := orbits[..last];
      ParseOrbitLines(init);
      assert OrbitLines(orbits)[..last] == OrbitLines(init);
      ParseOrbitMeans(OrbitLine(orbits[last]), orbits[last].1, orbits[last].0);
    }
  }

  /** The text of a non-empty list of orbits, one per line, is read back as the map the list describes. */
  lemma ParseOrbitsOfText(orbits: seq<(string, string)>)
    requires |orbits| >= 1
    requires forall i :: 0 <= i < |orbits| ==> CleanName(orbits[i].0) && CleanName(orbits[i].1)
    ensures ParseOrbits(Join(OrbitLines(orbits), '\n')) == Ok(MapOf(orbits))
  {
    var ls := OrbitLines(orbits);
    forall i | 0 <= i < |ls| ensures '\n' !in ls[i] && StripCr(ls[i]) == ls[i] {
      assert ls[i] == orbits[i].0 + ")" + orbits[i].1;
      if |orbits[i].1| > 0 {
        assert ls[i][|ls[i]| - 1] == orbits[i].1[|orbits[i].1| - 1];
      }
    }
    assert ls[|ls| - 1] != "" by {
      assert |OrbitLine(orbits[|ls| - 1])| > 0;
    }
    LinesOfJoin(ls);
    ParseOrbitLines(orbits);
  }

  /** A line that does not hold exactly one `)` makes the whole map fail to parse. */
  lemma ParseRejects(lines: seq<string>, j: nat)
    requires j < |lines| && |Split(lines[j], ')')| != 2
    ensures ParseLines(lines) == Err("Invalid orbit")
  {
    ParseLinesOk(lines);
  }

  // ---------------------------------------------------------------------------
  // Depth
  // ---------------------------------------------------------------------------

  /** The object `k` parent links above `obj`, if the links go that far. */
  function Ancestor(m: Orbits, obj: string, k: nat): Option<string>
    decreases k
  {
    if k == 0 then Some(obj) else if obj in m then Ancestor(m, m[obj], k - 1) else None
  }

  /** Following `d` links from `obj` ends at an object that orbits nothing. */
  predicate ReachesRoot(m: Orbits, obj: string, d: nat)
  {
    Ancestor(m, obj, d).Some? && Ancestor(m, obj, d).value !in m
  }

  /** Walking `a + b` links is walking `a` links and then `b` more. */
  lemma {:induction false} AncestorSplit(m: Orbits, obj: string, a: nat, b: nat)
    ensures Ancestor(m, obj, a + b) ==
      match Ancestor(m, obj, a)
      case None => None
      case Some(x) => Ancestor(m, x, b)
    decreases a
  {
    if a > 0 && obj in m {
      AncestorSplit(m, m[obj], a - 1, b);
    }
  }

  /** Where `b` links lead somewhere, every shorter walk does, through objects that orbit something. */
  lemma AncestorPrefix(m: Orbits, obj: string, a: nat, b: nat)
    requires a < b && Ancestor(m, obj, b).Some?
    ensures Ancestor(m, obj, a).Some? && Ancestor(m, obj, a).value in m
  {
    AncestorSplit(m, obj, a, b - a);
  }

  /** An object that is its own ancestor has ancestors at every distance. */
  lemma {:induction false} CycleForever(m: Orbits, c: string, p: nat, t: nat)
    requires p > 0 && Ancestor(m, c, p) == Some(c)
    ensures Ancestor(m, c, t).Some?
    decreases t
  {
    if t < p {
      AncestorPrefix(m, c, t, p);
    } else {
      AncestorSplit(m, c, p, t - p);
      CycleForever(m, c, p, t - p);
    }
  }

  /**
   * `depth`, which recurses through the parent links: `Some(d)` when it
   * returns `d`, and `None` when the links run into a cycle, where the
   * recursion never returns.  The objects not yet passed are `unseen`.
   */
  function DepthAvoiding(m: Orbits, unseen: set<string>, obj: string): Option<nat>
    requires unseen <= m.Keys
    decreases |unseen|
  {
    if obj !in m then Some(0)
    else if obj !in unseen then None
    else match DepthAvoiding(m, unseen - {obj}, m[obj])
      case None => None
      case Some(d) => Some(1 + d)
  }

  /** `Orbits::depth`. */
  function Depth(m: Orbits, obj: string): Option<nat>
  {
    DepthAvoiding(m, m.Keys, obj)
  }

  lemma {:induction false} DepthAvoidingSome(m: Orbits, unseen: set<string>, obj: string)
    requires unseen <= m.Keys && DepthAvoiding(m, unseen, obj).Some?
    ensures ReachesRoot(m, obj, DepthAvoiding(m, unseen, obj).value)
    decreases |unseen|
  {
    if obj in m {
      DepthAvoidingSome(m, unseen - {obj}, m[obj]);
    }
  }

  /**
   * Where `depth` does not return, the links from `obj` reach an object `x`
   * that was already passed, or one that is its own ancestor.
   */
  lemma {:induction false} DepthAvoidingNone(m: Orbits, unseen: set<string>, obj: string) returns (k: nat, x: string, p: nat)
    requires unseen <= m.Keys && DepthAvoiding(m, unseen, obj).None?
    ensures Ancestor(m, obj, k) == Some(x) && x in m
    ensures x !in unseen || (p > 0 && Ancestor(m, x, p) == Some(x))
    decreases |unseen|
  {
    if obj !in unseen {
      k, x, p := 0, obj, 0;
    } else {
      var k', x', p' := DepthAvoidingNone(m, unseen - {obj}, m[obj]);
      assert Ancestor(m, obj, k' + 1) == Some(x');
      if x' == obj && x' !in unseen - {obj} {
        k, x, p := 0, obj, k' + 1;
      } else {
        k, x, p := k' + 1, x', p';
      }
    }
  }

  /** The number of links to a root is unique. */
  lemma RootUnique(m: Orbits, obj: string, d: nat, e: nat)
    requires ReachesRoot(m, obj, d) && ReachesRoot(m, obj, e)
    ensures d == e
  {
    if d < e {
      AncestorPrefix(m, obj, d, e);
    } else if e < d {
      AncestorPrefix(m, obj, e, d);
    }
  }

  /** `depth(obj)` returns `d` exactly when `d` parent links lead from `obj` to an object that orbits nothing. */
  lemma DepthIsLinks(m: Orbits, obj: string, d: nat)
    ensures Depth(m, obj) == Some(d) <==> ReachesRoot(m, obj, d)
  {
    if Depth(m, obj).Some? {
      DepthAvoidingSome(m, m.Keys, obj);
      if ReachesRoot(m, obj, d) {
        RootUnique(m, obj, d, Depth(m, obj).value);
      }
    } else if ReachesRoot(m, obj, d) {
      var k, x, p := DepthAvoidingNone(m, m.Keys, obj);
      AncestorSplit(m, obj, k, d + 1);
      CycleForever(m, x, p, d + 1);
      AncestorSplit(m, obj, d, k + 1);
    }
  }

  /** `depth(obj)` never returns exactly when the parent links from `obj` go on for ever. */
  lemma DepthDiverges(m: Orbits, obj: string)
    ensures Depth(m, obj).None? <==> forall k :: Ancestor(m, obj, k).Some?
  {
    if Depth(m, obj).None? {
      var kc, x, p := DepthAvoidingNone(m, m.Keys, obj);
      forall k ensures Ancestor(m, obj, k).Some? {
        if k <= kc {
          if k < kc {
            AncestorPrefix(m, obj, k, kc);
          }
        } else {
          AncestorSplit(m, obj, kc, k - kc);
          CycleForever(m, x, p, k - kc);
        }
      }
    } else {
      var d := Depth(m, obj).value;
      DepthAvoidingSome(m, m.Keys, obj);
      AncestorSplit(m, obj, d, 1);
      assert Ancestor(m, obj, d + 1).None?;
    }
  }

  /** `depth` satisfies the recursion of `Orbits::depth`: 0 for a root, one more than its parent's otherwise. */
  lemma DepthRecursion(m: Orbits, obj: string)
    ensures obj !in m ==> Depth(m, obj) == Some(0)
    ensures obj in m ==>
      Depth(m, obj) == (match Depth(m, m[obj]) case None => None case Some(d) => Some(d + 1))
  {
    if obj in m {
      if Depth(m, m[obj]).Some? {
        var d := Depth(m, m[obj]).value;
        DepthIsLinks(m, m[obj], d);
        DepthIsLinks(m, obj, d + 1);
      } else {
        DepthDiverges(m, m[obj]);
        forall k: nat ensures Ancestor(m, obj, k).Some? {
          if k > 0 {
            assert Ancestor(m, obj, k) == Ancestor(m, m[obj], k - 1);
          }
        }
        DepthDiverges(m, obj);
      }
    }
  }

  /** Every object in the map has a finite depth: the parent links hold no cycle. */
  predicate Acyclic(m: Orbits)
  {
    forall obj :: obj in m ==> Depth(m, obj).Some?
  }

  // ---------------------------------------------------------------------------
  // The walk up through the parents
  // ---------------------------------------------------------------------------

  /** The parents of `obj`, nearest first, with the distances a walk begun at `dist` gives them. */
  function AncestorsFrom(m: Orbits, obj: string, dist: nat): (ps: seq<(string, nat)>)
    requires Depth(m, obj).Some?
    ensures |ps| == Depth(m, obj).value
    decreases Depth(m, obj).value
  {
    DepthRecursion(m, obj);
    if obj !in m then []
    else [(m[obj], dist + 1)] + AncestorsFrom(m, m[obj], dist + 1)
  }

  /** Entry `k` of the walk is the ancestor `k + 1` links up, at distance `dist + k + 1`. */
  lemma {:induction false} AncestorsAt(m: Orbits, obj: string, dist: nat, k: nat)
    requires Depth(m, obj).Some? && k < Depth(m, obj).value
    ensures Ancestor(m, obj, k + 1).Some?
    ensures AncestorsFrom(m, obj, dist)[k] == (Ancestor(m, obj, k + 1).value, dist + k + 1)
    decreases k
  {
    DepthRecursion(m, obj);
    if k > 0 {
      AncestorsAt(m, m[obj], dist + 1, k - 1);
    }
  }

  /** `Parents`: the iterator over the parents of an object, nearest first, each with its distance. */
  class Parents {
    const orbits: Orbits
    var obj: string
    var dist: nat

    /** `Orbits::parents`: a walk that starts at `obj`, at distance 0. */
    constructor (orbits: Orbits, obj: string)
      ensures this.orbits == orbits && this.obj == obj && dist == 0
    {
      this.orbits := orbits;
      this.obj := obj;
      dist := 0;
    }

    /** `Parents::next`: the parent of the current object, one further away, or nothing at a root. */
    method Next() returns (r: Option<(string, nat)>)
      modifies this
      ensures old(obj) in orbits ==> obj == orbits[old(obj)] && dist == old(dist) + 1 && r == Some((obj, dist))
      ensures old(obj) !in orbits ==> obj == old(obj) && dist == old(dist) && r == None
    {
      if obj in orbits {
        obj := orbits[obj];
        dist := dist + 1;
        r := Some((obj, dist));
      } else {
        r := None;
      }
    }

    /** Draining the iterator, as `collect` does: every parent in turn, and the walk ends at a root. */
    method Collect() returns (ps: seq<(string, nat)>)
      requires Depth(orbits, obj).Some?
      modifies this
      ensures ps == AncestorsFrom(orbits, old(obj), old(dist))
      ensures obj !in orbits
    {
      ps := [];
      while true
        invariant Depth(orbits, obj).Some?
        invariant ps + AncestorsFrom(orbits, obj, dist) == AncestorsFrom(orbits, old(obj), old(dist))
        decreases Depth(orbits, obj).value
      {
        DepthRecursion(orbits, obj);
        ghost var before := AncestorsFrom(orbits, obj, dist);
        var r := Next();
        if r.None? {
          return;
        }
        assert before == [r.value] + AncestorsFrom(orbits, obj, dist);
        ps := ps + [r.value];
      }
    }
  }

  // ---------------------------------------------------------------------------
  // Distance
  // ---------------------------------------------------------------------------

  /** Inserting `(object, distance)` pairs into `acc` in order: a later pair for an object replaces an earlier one. */
  function InsertAll(acc: map<string, nat>, ps: seq<(string, nat)>): (r: map<string, nat>)
    ensures forall x :: x in r <==> x in acc || exists k :: 0 <= k < |ps| && ps[k].0 == x
    decreases |ps|
  {
    if |ps| == 0 then acc
    else
      var r := InsertAll(acc[ps[0].0 := ps[0].1], ps[1..]);
      assert forall k :: 0 <= k < |ps| - 1 ==> ps[1..][k] == ps[k + 1];
      r
  }

  /** Collecting `(object, distance)` pairs into a `HashMap`. */
  function ToMap(ps: seq<(string, nat)>): map<string, nat>
  {
    InsertAll(map[], ps)
  }

  /** An object named once maps to its own distance. */
  lemma {:induction false} InsertAllAt(acc: map<string, nat>, ps: seq<(string, nat)>, k: nat)
    requires k < |ps|
    requires forall k' :: 0 <= k' < |ps| && k' != k ==> ps[k'].0 != ps[k].0
    ensures InsertAll(acc, ps)[ps[k].0] == ps[k].1
    decreases |ps|
  {
    if k > 0 {
      InsertAllAt(acc[ps[0].0 := ps[0].1], ps[1..], k - 1);
    } else {
      InsertAllKeep(acc[ps[0].0 := ps[0].1], ps[1..], ps[0].0);
    }
  }

  /** An object no pair names keeps the value it has in `acc`. */
  lemma {:induction false} InsertAllKeep(acc: map<string, nat>, ps: seq<(string, nat)>, x: string)
    requires x in acc && forall k :: 0 <= k < |ps| ==> ps[k].0 != x
    ensures InsertAll(acc, ps)[x] == acc[x]
    decreases |ps|
  {
    if |ps| > 0 {
      InsertAllKeep(acc[ps[0].0 := ps[0].1], ps[1..], x);
    }
  }

  /** `ToMap` of a list whose entry `k` names an object no other entry names maps it to entry `k`'s distance. */
  lemma ToMapAt(ps: seq<(string, nat)>, k: nat)
    requires k < |ps|
    requires forall k' :: 0 <= k' < |ps| && k' != k ==> ps[k'].0 != ps[k].0
    ensures ToMap(ps)[ps[k].0] == ps[k].1
  {
    InsertAllAt(map[], ps, k);
  }

  /** `filter(|(p, _)| keys.contains_key(p))`. */
  function Filter(ps: seq<(string, nat)>, keys: map<string, nat>): (r: seq<(string, nat)>)
    ensures forall x :: x in r <==> x in ps && x.0 in keys
    decreases |ps|
  {
    if |ps| == 0 then []
    else if ps[0].0 in keys then [ps[0]] + Filter(ps[1..], keys)
    else Filter(ps[1..], keys)
  }

  /** `min_by_key(|&(_, d)| d)`: a pair of least distance, the first such; nothing for no pairs. */
  function MinByDist(ps: seq<(string, nat)>): (r: Option<(string, nat)>)
    ensures r.Some? <==> |ps| > 0
    ensures r.Some? ==> r.value in ps && forall x :: x in ps ==> r.value.1 <= x.1
    decreases |ps|
  {
    if |ps| == 0 then None
    else match MinByDist(ps[1..])
      case None => Some(ps[0])
      case Some(b) => if b.1 < ps[0].1 then Some(b) else Some(ps[0])
  }

  /** `Orbits::distance`: the nearest parent of `obj2` that is also a parent of `obj1`, reached from both; 0 if there is none. */
  function Distance(m: Orbits, obj1: string, obj2: string): nat
    requires Depth(m, obj1).Some? && Depth(m, obj2).Some?
  {
    var parents1 := ToMap(AncestorsFrom(m, obj1, 0));
    match MinByDist(Filter(AncestorsFrom(m, obj2, 0), parents1))
    case None => 0
    case Some((common, d)) => d + parents1[common]
  }

  /** `i` links up from `obj1` and `j` links up from `obj2` lie the same object, a common parent of both. */
  predicate Common(m: Orbits, obj1: string, obj2: string, i: nat, j: nat)
  {
    1 <= i && 1 <= j && Ancestor(m, obj1, i).Some? && Ancestor(m, obj1, i) == Ancestor(m, obj2, j)
  }

  /** Where the links from `obj` end at a root, no ancestor lies beyond the depth. */
  lemma AncestorWithinDepth(m: Orbits, obj: string, k: nat)
    requires Depth(m, obj).Some? && Ancestor(m, obj, k).Some?
    ensures k <= Depth(m, obj).value
  {
    var d := Depth(m, obj).value;
    DepthIsLinks(m, obj, d);
    if k > d {
      AncestorSplit(m, obj, d, k - d);
    }
  }

  /**
   * On the walk up from an object of finite depth, each ancestor is met at one
   * distance only: one met twice would lie on a cycle, and the walk would
   * never reach a root.
   */
  lemma AncestorOnce(m: Orbits, obj: string, x: nat, y: nat)
    requires Depth(m, obj).Some?
    requires Ancestor(m, obj, x).Some? && Ancestor(m, obj, x) == Ancestor(m, obj, y)
    ensures x == y
  {
    if x != y {
      var lo, hi := if x < y then x else y, if x < y then y else x;
      var c := Ancestor(m, obj, lo).value;
      var d := Depth(m, obj).value;
      AncestorSplit(m, obj, lo, hi - lo);
      AncestorWithinDepth(m, obj, lo);
      CycleForever(m, c, hi - lo, d + 1 - lo);
      AncestorSplit(m, obj, lo, d + 1 - lo);
      AncestorWithinDepth(m, obj, d + 1);
    }
  }

  /** A common parent `j` links above `obj2` passes the filter of `distance`, with distance `j`. */
  lemma CommonFiltered(m: Orbits, obj1: string, obj2: string, i: nat, j: nat)
    requires Depth(m, obj1).Some? && Depth(m, obj2).Some? && Common(m, obj1, obj2, i, j)
    ensures (Ancestor(m, obj2, j).value, j) in Filter(AncestorsFrom(m, obj2, 0), ToMap(AncestorsFrom(m, obj1, 0)))
  {
    var ps := AncestorsFrom(m, obj1, 0);
    var bs := AncestorsFrom(m, obj2, 0);
    var c := Ancestor(m, obj2, j).value;
    AncestorWithinDepth(m, obj1, i);
    AncestorWithinDepth(m, obj2, j);
    AncestorsAt(m, obj1, 0, i - 1);
    AncestorsAt(m, obj2, 0, j - 1);
    assert ps[i - 1].0 == c;
    assert c in ToMap(ps);
    assert bs[j - 1] == (c, j);
    assert (c, j) in bs;
  }
  /** The distance `ToMap` gives an object `i` links above `obj` is `i`. */
  lemma ToMapOfAncestors(m: Orbits, obj: string, c: string) returns (i: nat)
    requires Depth(m, obj).Some? && c in ToMap(AncestorsFrom(m, obj, 0))
    ensures 1 <= i && Ancestor(m, obj, i) == Some(c)
    ensures ToMap(AncestorsFrom(m, obj, 0))[c] == i
  {
    var ps := AncestorsFrom(m, obj, 0);
    var k :| 0 <= k < |ps| && ps[k].0 == c;
    AncestorsAt(m, obj, 0, k);
    forall k' | 0 <= k' < |ps| && k' != k ensures ps[k'].0 != ps[k].0 {
      AncestorsAt(m, obj, 0, k');
      if ps[k'].0 == ps[k].0 {
        AncestorOnce(m, obj, k' + 1, k + 1);
      }
    }
    ToMapAt(ps, k);
    i := k + 1;
  }

  /** A common parent further up from `obj2` is no nearer in total: it lies above the nearer one on both walks. */
  lemma NearerCommon(m: Orbits, obj1: string, obj2: string, i: nat, j: nat, i': nat, j': nat)
    requires Depth(m, obj1).Some? && Depth(m, obj2).Some?
    requires Common(m, obj1, obj2, i, j) && Common(m, obj1, obj2, i', j') && j <= j'
    ensures i + j <= i' + j'
  {
    AncestorSplit(m, obj2, j, j' - j);
    AncestorSplit(m, obj1, i, j' - j);
    AncestorOnce(m, obj1, i', i + j' - j);
  }

  /**
   * `distance(obj1, obj2)` is the least `i + j` over the common parents lying
   * `i` links above `obj1` and `j` links above `obj2`, reached at `(i, j)`;
   * it is 0 exactly when there is no common parent.
   */
  lemma DistanceIsNearest(m: Orbits, obj1: string, obj2: string) returns (i: nat, j: nat)
    requires Depth(m, obj1).Some? && Depth(m, obj2).Some?
    ensures Distance(m, obj1, obj2) > 0 ==> Common(m, obj1, obj2, i, j) && Distance(m, obj1, obj2) == i + j
    ensures forall i': nat, j': nat :: Common(m, obj1, obj2, i', j') ==>
      Distance(m, obj1, obj2) > 0 && Distance(m, obj1, obj2) <= i' + j'
  {
    match MinByDist(Filter(AncestorsFrom(m, obj2, 0), ToMap(AncestorsFrom(m, obj1, 0))))
    case None =>
      NoCommonParent(m, obj1, obj2);
      i, j := 0, 0;
    case Some((c, d)) =>
      i, j := NearestCommonParent(m, obj1, obj2, c, d);
  }

  /** When no parent of `obj2` is a parent of `obj1`, the two have no common parent at all. */
  lemma NoCommonParent(m: Orbits, obj1: string, obj2: string)
    requires Depth(m, obj1).Some? && Depth(m, obj2).Some?
    requires MinByDist(Filter(AncestorsFrom(m, obj2, 0), ToMap(AncestorsFrom(m, obj1, 0)))).None?
    ensures forall i': nat, j': nat :: !Common(m, obj1, obj2, i', j')
  {
    if exists i': nat, j': nat :: Common(m, obj1, obj2, i', j') {
      var i': nat, j': nat :| Common(m, obj1, obj2, i', j');
      CommonFiltered(m, obj1, obj2, i', j');
    }
  }

  /** The nearest parent of `obj2` that `obj1` shares gives the fewest transfers. */
  lemma NearestCommonParent(m: Orbits, obj1: string, obj2: string, c: string, d: nat) returns (i: nat, j: nat)
    requires Depth(m, obj1).Some? && Depth(m, obj2).Some?
    requires MinByDist(Filter(AncestorsFrom(m, obj2, 0), ToMap(AncestorsFrom(m, obj1, 0)))) == Some((c, d))
    ensures Common(m, obj1, obj2, i, j) && Distance(m, obj1, obj2) == i + j
    ensures forall i': nat, j': nat :: Common(m, obj1, obj2, i', j') ==> i + j <= i' + j'
  {
    var bs := AncestorsFrom(m, obj2, 0);
    var kb :| 0 <= kb < |bs| && bs[kb] == (c, d);
    AncestorsAt(m, obj2, 0, kb);
    i := ToMapOfAncestors(m, obj1, c);
    j := d;
    forall i': nat, j': nat | Common(m, obj1, obj2, i', j') ensures i + j <= i' + j' {
      CommonFiltered(m, obj1, obj2, i', j');
      NearerCommon(m, obj1, obj2, i, j, i', j');
    }
  }

  // ---------------------------------------------------------------------------
  // The two parts
  // ---------------------------------------------------------------------------

  /** The depth as a number, where an object whose links run into a cycle counts 0; `part1` is only taken of acyclic maps. */
  function DepthOf(m: Orbits, obj: string): nat
  {
    match Depth(m, obj)
    case Some(d) => d
    case None => 0
  }

  /** The depths of the objects in `objs`, summed: the direct and indirect orbits they take part in. */
  ghost function SumDepths(m: Orbits, objs: set<string>): nat
    decreases objs
  {
    if objs == {} then 0
    else
      var obj :| obj in objs;
      DepthOf(m, obj) + SumDepths(m, objs - {obj})
  }

  /** The sum does not depend on the order the objects are taken in: any one of them can go first. */
  lemma {:induction false} SumDepthsRemove(m: Orbits, objs: set<string>, obj: string)
    requires obj in objs
    ensures SumDepths(m, objs) == DepthOf(m, obj) + SumDepths(m, objs - {obj})
    decreases objs
  {
    var first :| first in objs && SumDepths(m, objs) == DepthOf(m, first) + SumDepths(m, objs - {first});
    if first != obj {
      SumDepthsRemove(m, objs - {first}, obj);
      SumDepthsRemove(m, objs - {obj}, first);
      assert objs - {first} - {obj} == objs - {obj} - {first};
    }
  }

  /** Every object in the map orbits something, so the sum is at least the number of objects. */
  lemma {:induction false} SumDepthsAtLeast(m: Orbits, objs: set<string>)
    requires objs <= m.Keys && Acyclic(m)
    ensures SumDepths(m, objs) >= |objs|
    decreases objs
  {
    if objs != {} {
      var obj :| obj in objs && SumDepths(m, objs) == DepthOf(m, obj) + SumDepths(m, objs - {obj});
      DepthRecursion(m, obj);
      assert DepthOf(m, obj) >= 1;
      SumDepthsAtLeast(m, objs - {obj});
    }
  }

  /** `part1`: the depths of all objects in the map summed, in the map's own order of keys. */
  method Part1(m: Orbits) returns (total: nat)
    requires Acyclic(m)
    ensures total == SumDepths(m, m.Keys)
  {
    total := 0;
    var todo := m.Keys;
    while todo != {}
      invariant todo <= m.Keys
      invariant total + SumDepths(m, todo) == SumDepths(m, m.Keys)
      decreases todo
    {
      var obj :| obj in todo;
      SumDepthsRemove(m, todo, obj);
      total := total + Depth(m, obj).value;
      todo := todo - {obj};
    }
  }

  /** `part2`: the distance from `YOU` to `SAN`, less 2; the `u64` subtraction panics (`None`) below 2. */
  function Part2(m: Orbits): Option<nat>
    requires Depth(m, "YOU").Some? && Depth(m, "SAN").Some?
  {
    var d := Distance(m, "YOU", "SAN");
    if d < 2 then None else Some(d - 2)
  }

  /**
   * `part2` panics exactly when `YOU` and `SAN` have no common parent, and
   * otherwise counts the fewest transfers from the object `YOU` orbits to the
   * one `SAN` orbits: `(i - 1) + (j - 1)` for the nearest common parent.
   */
  lemma Part2Transfers(m: Orbits) returns (i: nat, j: nat)
    requires Depth(m, "YOU").Some? && Depth(m, "SAN").Some?
    ensures Part2(m).None? <==> forall i': nat, j': nat :: !Common(m, "YOU", "SAN", i', j')
    ensures Part2(m).Some? ==> Common(m, "YOU", "SAN", i, j) && Part2(m).value == (i - 1) + (j - 1)
    ensures Part2(m).Some? ==> forall i': nat, j': nat :: Common(m, "YOU", "SAN", i', j') ==> Part2(m).value <= (i' - 1) + (j' - 1)
  {
    i, j := DistanceIsNearest(m, "YOU", "SAN");
  }

  // ---------------------------------------------------------------------------
  // The tests
  // ---------------------------------------------------------------------------

  /** The orbits of the first test, as `(parent, child)` in the order of its lines. */
  function Example1(): seq<(string, string)>
  {
    [("COM", "B"), ("B", "C"), ("C", "D"), ("D", "E"), ("E", "F"), ("B", "G"),
     ("G", "H"), ("D", "I"), ("E", "J"), ("J", "K"), ("K", "L")]
  }

  /** The orbits of the second test: the first test's, with `YOU` and `SAN` added. */
  function Example2(): seq<(string, string)>
  {
    Example1() + [("K", "YOU"), ("I", "SAN")]
  }

  function Map1(): Orbits
  {
    map["B" := "COM", "C" := "B", "D" := "C", "E" := "D", "F" := "E", "G" := "B",
        "H" := "G", "I" := "D", "J" := "E", "K" := "J", "L" := "K"]
  }

  function Map2(): Orbits
  {
    Map1()["YOU" := "K"]["SAN" := "I"]
  }

  lemma MapOfPrefix(orbits: seq<(string, string)>, k: nat)
    requires k < |orbits|
    ensures MapOf(orbits[..k + 1]) == MapOf(orbits[..k])[orbits[k].1 := orbits[k].0]
  {
    assert orbits[..k + 1][..k] == orbits[..k];
  }

  lemma MapOfExample1()
    ensures MapOf(Example1()) == Map1()
  {
    var e := Example1();
    assert e[..0] == [];
    MapOfPrefix(e, 0);
    MapOfPrefix(e, 1);
    MapOfPrefix(e, 2);
    MapOfPrefix(e, 3);
    MapOfPrefix(e, 4);
    MapOfPrefix(e, 5);
    MapOfPrefix(e, 6);
    MapOfPrefix(e, 7);
    MapOfPrefix(e, 8);
    MapOfPrefix(e, 9);
    MapOfPrefix(e, 10);
    assert e[..11] == e;
  }

  lemma MapOfExample2()
    ensures MapOf(Example2()) == Map2()
  {
    var e := Example2();
    MapOfExample1();
    assert e[..11] == Example1();
    MapOfPrefix(e, 11);
    MapOfPrefix(e, 12);
    assert e[..13] == e;
  }

  /** The text of each test parses to its map. */
  lemma ParseExamples()
    ensures ParseOrbits(Join(OrbitLines(Example1()), '\n')) == Ok(Map1())
    ensures ParseOrbits(Join(OrbitLines(Example2()), '\n')) == Ok(Map2())
  {
    ParseOrbitsOfText(Example1());
    MapOfExample1();
    ParseOrbitsOfText(Example2());
    MapOfExample2();
  }

  /** The links of the first test's map, as facts about a map `m`. */
  predicate Shape1(m: Orbits)
  {
    "COM" !in m &&
    "B" in m && m["B"] == "COM" && "C" in m && m["C"] == "B" && "D" in m && m["D"] == "C" &&
    "E" in m && m["E"] == "D" && "F" in m && m["F"] == "E" && "G" in m && m["G"] == "B" &&
    "H" in m && m["H"] == "G" && "I" in m && m["I"] == "D" && "J" in m && m["J"] == "E" &&
    "K" in m && m["K"] == "J" && "L" in m && m["L"] == "K"
  }

  /** The links of the second test's map. */
  predicate Shape2(m: Orbits)
  {
    Shape1(m) && "YOU" in m && m["YOU"] == "K" && "SAN" in m && m["SAN"] == "I"
  }

  lemma DepthUp(m: Orbits, obj: string, d: nat)
    requires obj in m && Depth(m, m[obj]) == Some(d)
    ensures Depth(m, obj) == Some(d + 1)
  {
    DepthRecursion(m, obj);
  }

  lemma DepthsOfShape1(m: Orbits)
    requires Shape1(m)
    ensures Depth(m, "B") == Some(1) && Depth(m, "C") == Some(2) && Depth(m, "D") == Some(3)
    ensures Depth(m, "E") == Some(4) && Depth(m, "F") == Some(5) && Depth(m, "G") == Some(2)
    ensures Depth(m, "H") == Some(3) && Depth(m, "I") == Some(4) && Depth(m, "J") == Some(5)
    ensures Depth(m, "K") == Some(6) && Depth(m, "L") == Some(7)
  {
    DepthRecursion(m, "COM");
    DepthUp(m, "B", 0);
    DepthUp(m, "C", 1);
    DepthUp(m, "D", 2);
    DepthUp(m, "E", 3);
    DepthUp(m, "F", 4);
    DepthUp(m, "G", 1);
    DepthUp(m, "H", 2);
    DepthUp(m, "I", 3);
    DepthUp(m, "J", 4);
    DepthUp(m, "K", 5);
    DepthUp(m, "L", 6);
  }

  /** The depths of a list of objects, summed in order. */
  function SumDepthsList(m: Orbits, objs: seq<string>): nat
    decreases |objs|
  {
    if |objs| == 0 then 0 else DepthOf(m, objs[0]) + SumDepthsList(m, objs[1..])
  }

  /** Summing over a set equals summing over any list of its objects without repeats. */
  lemma {:induction false} SumDepthsOfList(m: Orbits, objs: seq<string>)
    requires forall i, j :: 0 <= i < j < |objs| ==> objs[i] != objs[j]
    ensures SumDepths(m, set o | o in objs) == SumDepthsList(m, objs)
    decreases |objs|
  {
    if |objs| > 0 {
      var rest := objs[1..];
      assert forall i :: 0 <= i < |rest| ==> rest[i] == objs[i + 1];
      SumDepthsOfList(m, rest);
      SumDepthsRemove(m, (set o | o in objs), objs[0]);
      assert (set o | o in objs) - {objs[0]} == set o | o in rest;
    }
  }

  lemma SumListOfShape1(m: Orbits, objs: seq<string>)
    requires objs == ["B", "C", "D", "E", "F", "G", "H", "I", "J", "K", "L"]
    requires Depth(m, "B") == Some(1) && Depth(m, "C") == Some(2) && Depth(m, "D") == Some(3)
    requires Depth(m, "E") == Some(4) && Depth(m, "F") == Some(5) && Depth(m, "G") == Some(2)
    requires Depth(m, "H") == Some(3) && Depth(m, "I") == Some(4) && Depth(m, "J") == Some(5)
    requires Depth(m, "K") == Some(6) && Depth(m, "L") == Some(7)
    ensures SumDepthsList(m, objs) == 42
  {
    var l: seq<string> := [];
    SumDepthsCons(m, "L", 7, l, 0);
    l := ["L"] + l;
    SumDepthsCons(m, "K", 6, l, 7);
    l := ["K"] + l;
    SumDepthsCons(m, "J", 5, l, 13);
    l := ["J"] + l;
    SumDepthsCons(m, "I", 4, l, 18);
    l := ["I"] + l;
    SumDepthsCons(m, "H", 3, l, 22);
    l := ["H"] + l;
    SumDepthsCons(m, "G", 2, l, 25);
    l := ["G"] + l;
    SumDepthsCons(m, "F", 5, l, 27);
    l := ["F"] + l;
    SumDepthsCons(m, "E", 4, l, 32);
    l := ["E"] + l;
    SumDepthsCons(m, "D", 3, l, 36);
    l := ["D"] + l;
    SumDepthsCons(m, "C", 2, l, 39);
    l := ["C"] + l;
    SumDepthsCons(m, "B", 1, l, 41);
    l := ["B"] + l;
    assert l == objs;
  }

  /** An object in front of a list adds its depth to the list's sum. */
  lemma SumDepthsCons(m: Orbits, obj: string, d: nat, rest: seq<string>, s: nat)
    requires Depth(m, obj) == Some(d) && SumDepthsList(m, rest) == s
    ensures SumDepthsList(m, [obj] + rest) == d + s
  {
    assert ([obj] + rest)[1..] == rest;
  }

  lemma KeysOfShape1(m: Orbits, objs: seq<string>)
    requires m.Keys == {"B", "C", "D", "E", "F", "G", "H", "I", "J", "K", "L"}
    requires objs == ["B", "C", "D", "E", "F", "G", "H", "I", "J", "K", "L"]
    ensures m.Keys == set o | o in objs
  {
  }

  lemma DistinctOfShape1(objs: seq<string>)
    requires objs == ["B", "C", "D", "E", "F", "G", "H", "I", "J", "K", "L"]
    ensures forall i, j :: 0 <= i < j < |objs| ==> objs[i] != objs[j]
  {
    var letters := "BCDEFGHIJKL";
    assert forall i :: 0 <= i < |objs| ==> objs[i] == [letters[i]];
    assert forall i, j :: 0 <= i < j < |letters| ==> letters[i] < letters[j];
  }

  lemma AcyclicOfShape1(m: Orbits)
    requires Shape1(m) && m.Keys == {"B", "C", "D", "E", "F", "G", "H", "I", "J", "K", "L"}
    ensures Acyclic(m)
  {
    DepthsOfShape1(m);
  }

  lemma Part1OfShape1(m: Orbits)
    requires Shape1(m) && m.Keys == {"B", "C", "D", "E", "F", "G", "H", "I", "J", "K", "L"}
    ensures Acyclic(m) && SumDepths(m, m.Keys) == 42
  {
    AcyclicOfShape1(m);
    var objs := ["B", "C", "D", "E", "F", "G", "H", "I", "J", "K", "L"];
    KeysOfShape1(m, objs);
    DistinctOfShape1(objs);
    SumDepthsOfList(m, objs);
    DepthsOfShape1(m);
    SumListOfShape1(m, objs);
  }

  lemma WalksOfShape2(m: Orbits)
    requires Shape2(m)
    ensures Depth(m, "YOU") == Some(7) && Depth(m, "SAN") == Some(5)
    ensures AncestorsFrom(m, "YOU", 0) == [("K", 1), ("J", 2), ("E", 3), ("D", 4), ("C", 5), ("B", 6), ("COM", 7)]
    ensures AncestorsFrom(m, "SAN", 0) == [("I", 1), ("D", 2), ("C", 3), ("B", 4), ("COM", 5)]
  {
    DepthsOfShape1(m);
    DepthRecursion(m, "COM");
    DepthUp(m, "YOU", 6);
    DepthUp(m, "SAN", 4);
    assert AncestorsFrom(m, "COM", 7) == [];
    assert AncestorsFrom(m, "B", 6) == [("COM", 7)];
    assert AncestorsFrom(m, "C", 5) == [("B", 6), ("COM", 7)];
    assert AncestorsFrom(m, "D", 4) == [("C", 5), ("B", 6), ("COM", 7)];
    assert AncestorsFrom(m, "E", 3) == [("D", 4), ("C", 5), ("B", 6), ("COM", 7)];
    assert AncestorsFrom(m, "J", 2) == [("E", 3), ("D", 4), ("C", 5), ("B", 6), ("COM", 7)];
    assert AncestorsFrom(m, "K", 1) == [("J", 2), ("E", 3), ("D", 4), ("C", 5), ("B", 6), ("COM", 7)];
    assert AncestorsFrom(m, "COM", 5) == [];
    assert AncestorsFrom(m, "B", 4) == [("COM", 5)];
    assert AncestorsFrom(m, "C", 3) == [("B", 4), ("COM", 5)];
    assert AncestorsFrom(m, "D", 2) == [("C", 3), ("B", 4), ("COM", 5)];
    assert AncestorsFrom(m, "I", 1) == [("D", 2), ("C", 3), ("B", 4), ("COM", 5)];
  }

  lemma ParentsOfYou(m: Orbits)
    requires Shape2(m)
    ensures Depth(m, "YOU").Some? && Depth(m, "SAN").Some?
    ensures ToMap(AncestorsFrom(m, "YOU", 0)) == map["K" := 1, "J" := 2, "E" := 3, "D" := 4, "C" := 5, "B" := 6, "COM" := 7]
    ensures AncestorsFrom(m, "SAN", 0) == [("I", 1), ("D", 2), ("C", 3), ("B", 4), ("COM", 5)]
  {
    WalksOfShape2(m);
    assert ToMap([("K", 1), ("J", 2), ("E", 3), ("D", 4), ("C", 5), ("B", 6), ("COM", 7)]) ==
      map["K" := 1, "J" := 2, "E" := 3, "D" := 4, "C" := 5, "B" := 6, "COM" := 7];
  }

  lemma FilterOfSan(keys: map<string, nat>)
    requires keys == map["K" := 1, "J" := 2, "E" := 3, "D" := 4, "C" := 5, "B" := 6, "COM" := 7]
    ensures Filter([("I", 1), ("D", 2), ("C", 3), ("B", 4), ("COM", 5)], keys) ==
      [("D", 2), ("C", 3), ("B", 4), ("COM", 5)]
  {
    assert "COM" in keys && "B" in keys && "C" in keys && "D" in keys;
    assert "I" !in keys;
    var tail := [("D", 2), ("C", 3), ("B", 4), ("COM", 5)];
    FilterKept(tail, keys);
    assert [("I", 1), ("D", 2), ("C", 3), ("B", 4), ("COM", 5)][1..] == tail;
  }

  /** A list whose every key is present filters to itself. */
  lemma {:induction false} FilterKept(ps: seq<(string, nat)>, keys: map<string, nat>)
    requires forall i :: 0 <= i < |ps| ==> ps[i].0 in keys
    ensures Filter(ps, keys) == ps
    decreases |ps|
  {
    if |ps| > 0 {
      FilterKept(ps[1..], keys);
    }
  }

  lemma MinOfSan()
    ensures MinByDist([("D", 2), ("C", 3), ("B", 4), ("COM", 5)]) == Some(("D", 2))
  {
  }

  lemma FilteredOfShape2(m: Orbits)
    requires Shape2(m)
    ensures Depth(m, "YOU").Some? && Depth(m, "SAN").Some?
    ensures Filter(AncestorsFrom(m, "SAN", 0), ToMap(AncestorsFrom(m, "YOU", 0))) == [("D", 2), ("C", 3), ("B", 4), ("COM", 5)]
  {
    ParentsOfYou(m);
    FilterOfSan(ToMap(AncestorsFrom(m, "YOU", 0)));
  }

  lemma NearestOfShape2(m: Orbits)
    requires Shape2(m)
    ensures Depth(m, "YOU").Some? && Depth(m, "SAN").Some?
    ensures MinByDist(Filter(AncestorsFrom(m, "SAN", 0), ToMap(AncestorsFrom(m, "YOU", 0)))) == Some(("D", 2))
  {
    FilteredOfShape2(m);
    MinOfSan();
  }

  lemma ParentDOfShape2(m: Orbits)
    requires Shape2(m)
    ensures Depth(m, "YOU").Some?
    ensures "D" in ToMap(AncestorsFrom(m, "YOU", 0)) && ToMap(AncestorsFrom(m, "YOU", 0))["D"] == 4
  {
    ParentsOfYou(m);
  }

  lemma Part2OfShape2(m: Orbits)
    requires Shape2(m)
    ensures Depth(m, "YOU").Some? && Depth(m, "SAN").Some?
    ensures Distance(m, "YOU", "SAN") == 6 && Part2(m) == Some(4)
  {
    NearestOfShape2(m);
    ParentDOfShape2(m);
  }

  /** The first test: `depth("D") = 3`, `depth("L") = 7`, and `part1 = 42`. */
  lemma Test01()
    ensures Depth(Map1(), "D") == Some(3) && Depth(Map1(), "L") == Some(7)
    ensures Acyclic(Map1()) && SumDepths(Map1(), Map1().Keys) == 42
  {
    assert Shape1(Map1());
    DepthsOfShape1(Map1());
    Part1OfShape1(Map1());
  }

  /** The second test: `part2 = 4`. */
  lemma Test02()
    ensures Depth(Map2(), "YOU").Some? && Depth(Map2(), "SAN").Some?
    ensures Part2(Map2()) == Some(4)
  {
    assert Shape2(Map2());
    Part2OfShape2(Map2());
  }
}
