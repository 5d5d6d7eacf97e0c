/**
 * Day 2 (src/p02.rs): the first, array-backed Intcode machine with only add,
 * multiply and halt, over a `Vec<usize>` that its steps overwrite in place.
 * Indexing out of bounds panics in Rust; here that is the `Panic` outcome.
 */
module P02 {
  import opened Text

  datatype Opcode = Add(op1: nat, op2: nat, out: nat) | Mul(op1: nat, op2: nat, out: nat) | Halt
  {
    function Size(): nat
    {
      if Halt? then 1 else 4
    }
  }

  /** The result of `Opcode::new`: an instruction, an invalid op-code, or an index-out-of-bounds panic. */
  datatype Decoded = Op(op: Opcode) | Invalid(code: nat) | OutOfBounds

  /** `Opcode::new(data, ptr)`: operands are read through their addresses, the target is taken as is. */
  function Decode(data: seq<nat>, ptr: nat): (d: Decoded)
    ensures d.Op? ==> ptr < |data|
    ensures d.Op? && !d.op.Halt? ==> ptr + 3 < |data|
  {
    if ptr >= |data| then OutOfBounds
    else if data[ptr] == 1 || data[ptr] == 2 then
      if ptr + 3 < |data| && data[ptr + 1] < |data| && data[ptr + 2] < |data| then
        var op1, op2, out := data[data[ptr + 1]], data[data[ptr + 2]], data[ptr + 3];
        Op(if data[ptr] == 1 then Add(op1, op2, out) else Mul(op1, op2, out))
      else OutOfBounds
    else if data[ptr] == 99 then Op(Halt)
    else Invalid(data[ptr])
  }

  /** What `step` gives: `Ok(false)`, `Ok(true)` after `Halt`, an error message, or a panic. */
  datatype StepResult = Continue | Stopped | Error(msg: string) | Panic

  /** `Intcode::step` on the memory `data` with the pointer at `ptr`. */
  function StepSpec(data: seq<nat>, ptr: nat): (r: (seq<nat>, nat, StepResult))
    ensures |r.0| == |data|
    ensures r.2.Continue? ==> ptr < |data| && r.1 == ptr + 4
  {
    match Decode(data, ptr)
    case OutOfBounds => (data, ptr, Panic)
    case Invalid(code) => (data, ptr, Error("Invalid opcode " + NatToString(code)))
    case Op(Halt) => (data, ptr + 1, Stopped)
    case Op(Add(op1, op2, out)) =>
      if out < |data| then (data[out := op1 + op2], ptr + 4, Continue) else (data, ptr, Panic)
    case Op(Mul(op1, op2, out)) =>
      if out < |data| then (data[out := op1 * op2], ptr + 4, Continue) else (data, ptr, Panic)
  }

  /** How `run` ends: `Ok(())` after `Halt`, the first error, or a panic. */
  datatype Outcome = Done | Failed(msg: string) | Crashed

  /**
   * `Intcode::run`: step until `Halt` or an error.  Every step that goes on
   * moves the pointer 4 cells further into a memory whose size never changes,
   * so the loop always ends.
   */
  function RunSpec(data: seq<nat>, ptr: nat): (r: (seq<nat>, nat, Outcome))
    ensures |r.0| == |data|
    decreases |data| - ptr
  {
    var (d, p, s) := StepSpec(data, ptr);
    match s
    case Continue => RunSpec(d, p)
    case Stopped => (d, p, Done)
    case Error(msg) => (d, p, Failed(msg))
    case Panic => (d, p, Crashed)
  }

  /** `run_with(noun, verb)`: the memory with cells 1 and 2 replaced, run from the start. */
  function RunWithSpec(data: seq<nat>, noun: nat, verb: nat): (r: (seq<nat>, nat, Outcome))
    ensures |r.0| == |data|
    ensures |data| < 3 ==> r.2 == Crashed
  {
    if |data| < 3 then (data, 0, Crashed)
    else RunSpec(data[1 := noun][2 := verb], 0)
  }

  // ---------------------------------------------------------------------------
  // The machine, in place
  // ---------------------------------------------------------------------------

  class Intcode {
    var data: array<nat>
    var ptr: nat

    /** `Intcode::new`: the program in memory, pointer at 0. */
    constructor (code: seq<nat>)
      ensures data[..] == code && ptr == 0
      ensures fresh(data)
    {
      data := new nat[|code|](i requires 0 <= i < |code| => code[i]);
      ptr := 0;
    }

    /** `step`: decode at the pointer, overwrite the target cell, advance. */
    method Step() returns (r: StepResult)
      modifies this, data
      ensures data == old(data)
      ensures (data[..], ptr, r) == StepSpec(old(data[..]), old(ptr))
    {
      var op := Decode(data[..], ptr);
      match op {
        case OutOfBounds =>
          return Panic;
        case Invalid(code) =>
          return Error("Invalid opcode " + NatToString(code));
        case Op(o) =>
          match o {
            case Add(op1, op2, out) =>
              if out >= data.Length {
                return Panic;
              }
              data[out] := op1 + op2;
            case Mul(op1, op2, out) =>
              if out >= data.Length {
                return Panic;
              }
              data[out] := op1 * op2;
            case Halt =>
          }
          ptr := ptr + o.Size();
          r := if o.Halt? then Stopped else Continue;
      }
    }

    /** `run`: `step` until it reports `Halt` or fails. */
    method Run() returns (r: Outcome)
      modifies this, data
      ensures data == old(data)
      ensures (data[..], ptr, r) == RunSpec(old(data[..]), old(ptr))
    {
      while true
        invariant data == old(data)
        invariant RunSpec(data[..], ptr) == RunSpec(old(data[..]), old(ptr))
        decreases data.Length - ptr
      {
        var s := Step();
        match s {
          case Continue =>
          case Stopped =>
            return Done;
          case Error(msg) =>
            return Failed(msg);
          case Panic =>
            return Crashed;
        }
      }
    }

    /** `run_with`: store `noun` and `verb` in cells 1 and 2, then `run`. */
    method RunWith(noun: nat, verb: nat) returns (r: Outcome)
      requires ptr == 0
      modifies this, data
      ensures data == old(data)
      ensures (data[..], ptr, r) == RunWithSpec(old(data[..]), noun, verb)
    {
      if data.Length < 3 {
        return Crashed;
      }
      data[1] := noun;
      data[2] := verb;
      assert data[..] == old(data[..])[1 := noun][2 := verb];
      r := Run();
    }
  }

  // ---------------------------------------------------------------------------
  // The two parts
  // ---------------------------------------------------------------------------

  /** What a part returns: its value, an error message, or a panic. */
  datatype Answer = Ok(value: nat) | Err(msg: string) | Panicked

  /** `part1`: cell 0 after running with noun 12 and verb 2. */
  function Part1(code: seq<nat>): Answer
  {
    var (d, _, r) := RunWithSpec(code, 12, 2);
    match r
    case Done => Ok(d[0])
    case Failed(msg) => Err(msg)
    case Crashed => Panicked
  }

  /** What one attempt of `part2` finds: the target in cell 0, something else, or a panic that ends the search. */
  datatype Probe = Hit | Miss | Abort

  /** One attempt of `part2`: a fresh machine on `code`, run with `noun` and `verb`. */
  function ProbeOf(code: seq<nat>): (nat, nat) -> Probe
  {
    (noun: nat, verb: nat) =>
      var (d, _, r) := RunWithSpec(code, noun, verb);
      match r
      case Crashed => Abort
      case Failed(_) => Miss
      case Done => if |d| > 0 && d[0] == 19690720 then Hit else Miss
  }

  /**
   * `part1` is one attempt of `part2`, the one with noun 12 and verb 2: it
   * panics exactly when that attempt aborts, and answers the target exactly
   * when that attempt hits.
   */
  lemma Part1Probe(code: seq<nat>)
    ensures Part1(code) == Panicked <==> ProbeOf(code)(12, 2) == Abort
    ensures Part1(code) == Ok(19690720) <==> ProbeOf(code)(12, 2) == Hit
    ensures Part1(code).Err? ==> ProbeOf(code)(12, 2) == Miss
  {
    var (d, _, r) := RunWithSpec(code, 12, 2);
    if r.Done? {
      assert |d| == |code| >= 3;
    }
  }

  /** The pair `(n, v)` is in the square below `bound` and comes at or after `(noun, verb)`, nouns outer. */
  ghost predicate Within(bound: nat, noun: nat, verb: nat, n: nat, v: nat)
  {
    n < bound && v < bound && (noun < n || (noun == n && verb <= v))
  }

  /** Every pair from `(noun, verb)` up to, not including, `(n, v)` misses. */
  ghost predicate MissBefore(probe: (nat, nat) -> Probe, bound: nat, noun: nat, verb: nat, n: nat, v: nat)
  {
    forall n': nat, v': nat :: Within(bound, noun, verb, n', v') && (n' < n || (n' == n && v' < v)) ==> probe(n', v') == Miss
  }

  /** The nested search of `part2` over nouns and verbs below `bound`, from `(noun, verb)` on. */
  function Search(probe: (nat, nat) -> Probe, bound: nat, noun: nat, verb: nat): Answer
    decreases bound - noun, bound - verb
  {
    if noun >= bound then Err("No solution found")
    else if verb >= bound then Search(probe, bound, noun + 1, 0)
    else match probe(noun, verb)
      case Hit => Ok(100 * noun + verb)
      case Abort => Panicked
      case Miss => Search(probe, bound, noun, verb + 1)
  }

  /**
   * The search answers `100 * noun + verb` for the first pair that hits, panics
   * with the first attempt that panics, and otherwise reports that there is no
   * solution, exactly when every pair misses.
   */
  lemma {:induction false} SearchFirst(probe: (nat, nat) -> Probe, bound: nat, noun: nat, verb: nat)
    ensures Search(probe, bound, noun, verb).Ok? ==>
      exists n: nat, v: nat :: Within(bound, noun, verb, n, v) && probe(n, v) == Hit &&
        Search(probe, bound, noun, verb).value == 100 * n + v && MissBefore(probe, bound, noun, verb, n, v)
    ensures Search(probe, bound, noun, verb).Panicked? ==>
      exists n: nat, v: nat :: Within(bound, noun, verb, n, v) && probe(n, v) == Abort && MissBefore(probe, bound, noun, verb, n, v)
    ensures Search(probe, bound, noun, verb).Err? <==>
      forall n: nat, v: nat :: Within(bound, noun, verb, n, v) ==> probe(n, v) == Miss
    ensures Search(probe, bound, noun, verb).Err? ==> Search(probe, bound, noun, verb) == Err("No solution found")
    decreases bound - noun, bound - verb
  {
    if noun >= bound {
    } else if verb >= bound {
      SearchFirst(probe, bound, noun + 1, 0);
      assert forall n: nat, v: nat :: Within(bound, noun, verb, n, v) == Within(bound, noun + 1, 0, n, v);
    } else if probe(noun, verb) == Miss {
      SearchFirst(probe, bound, noun, verb + 1);
      assert forall n: nat, v: nat :: (Within(bound, noun, verb, n, v) ==
        ((n == noun && v == verb) || Within(bound, noun, verb + 1, n, v)));
    } else {
      assert Within(bound, noun, verb, noun, verb);
    }
  }

  /** Conversely, a pair that hits after only misses is the answer. */
  lemma {:induction false} SearchHits(probe: (nat, nat) -> Probe, bound: nat, noun: nat, verb: nat, n: nat, v: nat)
    requires Within(bound, noun, verb, n, v) && probe(n, v) == Hit
    requires MissBefore(probe, bound, noun, verb, n, v)
    ensures Search(probe, bound, noun, verb) == Ok(100 * n + v)
    decreases bound - noun, bound - verb
  {
    if verb >= bound {
      SearchHits(probe, bound, noun + 1, 0, n, v);
    } else if (noun, verb) != (n, v) {
      assert probe(noun, verb) == Miss;
      SearchHits(probe, bound, noun, verb + 1, n, v);
    }
  }

  /** `part2` as written: `for noun in 0..99 { for verb in 0..99 { … } }`, both bounds exclusive. */
  function Part2AsWritten(code: seq<nat>): Answer
  {
    Search(ProbeOf(code), 99, 0, 0)
  }

  /** `part2` as intended: nouns and verbs from 0 to 99 inclusive. */
  function Part2(code: seq<nat>): Answer
  {
    Search(ProbeOf(code), 100, 0, 0)
  }

  /** The nested loops of `part2`, each attempt on a fresh machine, over pairs below `bound`. */
  method SearchPairs(code: seq<nat>, bound: nat) returns (r: Answer)
    ensures r == Search(ProbeOf(code), bound, 0, 0)
  {
    for noun := 0 to bound
      invariant Search(ProbeOf(code), bound, 0, 0) == Search(ProbeOf(code), bound, noun, 0)
    {
      for verb := 0 to bound
        invariant Search(ProbeOf(code), bound, 0, 0) == Search(ProbeOf(code), bound, noun, verb)
      {
        var prog := new Intcode(code);
        var res := prog.RunWith(noun, verb);
        if res.Crashed? {
          return Panicked;
        }
        if res.Done? && prog.data[0] == 19690720 {
          return Ok(100 * noun + verb);
        }
      }
    }
    r := Err("No solution found");
  }

  // ---------------------------------------------------------------------------
  // The test programs
  // ---------------------------------------------------------------------------

  /** An add or multiply with every index in range overwrites its target and moves on 4 cells. */
  lemma StepArith(data: seq<nat>, ptr: nat)
    requires ptr + 3 < |data| && (data[ptr] == 1 || data[ptr] == 2)
    requires data[ptr + 1] < |data| && data[ptr + 2] < |data| && data[ptr + 3] < |data|
    ensures var a, b := data[data[ptr + 1]], data[data[ptr + 2]];
      StepSpec(data, ptr) == (data[data[ptr + 3] := if data[ptr] == 1 then a + b else a * b], ptr + 4, Continue)
  {
  }

  /** `Halt` changes no cell, moves on 1 cell and ends the run. */
  lemma StepHalt(data: seq<nat>, ptr: nat)
    requires ptr < |data| && data[ptr] == 99
    ensures StepSpec(data, ptr) == (data, ptr + 1, Stopped)
  {
  }

  /** Any other op-code is an error naming it; an index out of range panics; neither changes the state. */
  lemma StepFails(data: seq<nat>, ptr: nat)
    ensures ptr >= |data| ==> StepSpec(data, ptr) == (data, ptr, Panic)
    ensures ptr < |data| && data[ptr] !in {1, 2, 99} ==>
      StepSpec(data, ptr) == (data, ptr, Error("Invalid opcode " + NatToString(data[ptr])))
    ensures ptr < |data| && data[ptr] in {1, 2} && ptr + 3 < |data| && data[ptr + 3] >= |data| ==>
      StepSpec(data, ptr).2 == Panic
  {
  }

  /** The four programs of the test, run to `Halt`, leave the memory the test expects. */
  lemma RunExamples()
    ensures RunSpec([1, 0, 0, 0, 99], 0) == ([2, 0, 0, 0, 99], 5, Done)
    ensures RunSpec([2, 3, 0, 3, 99], 0) == ([2, 3, 0, 6, 99], 5, Done)
    ensures RunSpec([2, 4, 4, 5, 99, 0], 0) == ([2, 4, 4, 5, 99, 9801], 5, Done)
    ensures RunSpec([1, 1, 1, 4, 99, 5, 6, 0, 99], 0) == ([30, 1, 1, 4, 2, 5, 6, 0, 99], 9, Done)
  {
    StepArith([1, 0, 0, 0, 99], 0);
    assert [1, 0, 0, 0, 99][0 := 2] == [2, 0, 0, 0, 99];
    StepHalt([2, 0, 0, 0, 99], 4);
    StepArith([2, 3, 0, 3, 99], 0);
    assert [2, 3, 0, 3, 99][3 := 6] == [2, 3, 0, 6, 99];
    StepHalt([2, 3, 0, 6, 99], 4);
    StepArith([2, 4, 4, 5, 99, 0], 0);
    assert [2, 4, 4, 5, 99, 0][5 := 9801] == [2, 4, 4, 5, 99, 9801];
    StepHalt([2, 4, 4, 5, 99, 9801], 4);
    StepArith([1, 1, 1, 4, 99, 5, 6, 0, 99], 0);
    assert [1, 1, 1, 4, 99, 5, 6, 0, 99][4 := 2] == [1, 1, 1, 4, 2, 5, 6, 0, 99];
    StepArith([1, 1, 1, 4, 2, 5, 6, 0, 99], 4);
    assert [1, 1, 1, 4, 2, 5, 6, 0, 99][0 := 30] == [30, 1, 1, 4, 2, 5, 6, 0, 99];
    StepHalt([30, 1, 1, 4, 2, 5, 6, 0, 99], 8);
  }

  // ---------------------------------------------------------------------------
  // The exclusive bounds of `part2`
  // ---------------------------------------------------------------------------

  /**
   * A program of 100 cells whose only answer needs verb 99: with noun `n` and
   * verb `v` it adds cells `n` and `v` into cell 0 and halts, and cell 99
   * holds the target.
   */
  function Witness(): seq<nat>
  {
    [1, 0, 0, 0, 99] + seq(94, _ => 0) + [19690720]
  }

  /** With any noun and verb in range, the witness makes one addition and halts. */
  lemma WitnessRun(n: nat, v: nat)
    requires n < 100 && v < 100
    ensures var w := Witness()[1 := n][2 := v];
      RunWithSpec(Witness(), n, v) == (w[0 := w[n] + w[v]], 5, Done)
  {
    var w := Witness()[1 := n][2 := v];
    assert |w| == 100 && w[0] == 1 && w[3] == 0 && w[4] == 99;
    StepArith(w, 0);
    var w' := w[0 := w[n] + w[v]];
    StepHalt(w', 4);
    assert RunSpec(w', 4) == (w', 5, Done);
    assert RunSpec(w, 0) == RunSpec(w', 4);
  }

  /** The witness, attempted with noun `n` and verb `v`, hits exactly when cells `n` and `v` add up to the target. */
  lemma WitnessProbe(n: nat, v: nat)
    requires n < 100 && v < 100
    ensures var w := Witness()[1 := n][2 := v];
      ProbeOf(Witness())(n, v) == if w[n] + w[v] == 19690720 then Hit else Miss
  {
    WitnessRun(n, v);
  }

  /** Below 99 every cell of the witness is at most 99, so no pair the loops try can hit. */
  lemma Part2AsWrittenMisses()
    ensures Part2AsWritten(Witness()) == Err("No solution found")
  {
    forall n: nat, v: nat | Within(99, 0, 0, n, v)
      ensures ProbeOf(Witness())(n, v) == Miss
    {
      WitnessProbe(n, v);
      var w := Witness()[1 := n][2 := v];
      assert w[n] <= 99 && w[v] <= 99;
    }
    SearchFirst(ProbeOf(Witness()), 99, 0, 0);
  }

  /** `part1` on the witness adds cell 12 and the verb 2 into cell 0. */
  lemma Part1OfWitness()
    ensures Part1(Witness()) == Ok(2)
  {
    WitnessRun(12, 2);
    var w := Witness()[1 := 12][2 := 2];
    assert w[12] == 0 && w[2] == 2;
  }

  /** With the inclusive bounds the search finds noun 3 and verb 99, the first pair that hits. */
  lemma Part2Finds()
    ensures Part2(Witness()) == Ok(399)
  {
    var probe := ProbeOf(Witness());
    WitnessProbe(3, 99);
    assert probe(3, 99) == Hit;
    forall n: nat, v: nat | Within(100, 0, 0, n, v) && (n < 3 || (n == 3 && v < 99))
      ensures probe(n, v) == Miss
    {
      WitnessProbe(n, v);
      var w := Witness()[1 := n][2 := v];
      assert w[n] <= 99;
      assert n == 2 ==> w[n] == v;
      assert v < 99 ==> w[v] <= 99;
    }
    SearchHits(probe, 100, 0, 0, 3, 99);
  }
}
