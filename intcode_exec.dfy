/**
 * `IntcodeExec` (src/intcode.rs): the execution session that owns the memory
 * and the two I/O channels and is advanced in place, one instruction per call
 * of `next`.  Every method is proved against the pure step and drivers of the
 * Intcode module: the object's state afterwards, and what it returns, are
 * those functions applied to its state before.
 */
module IntcodeExec {
  import opened Wrappers
  import opened Intcode
  import IntcodeProps

  class Exec {
    var mem: Memory
    /** The values the input channel holds, every one ever written to it. */
    var input: seq<int>
    /** How many of them have been read. */
    var cursor: nat
    /** The values written to the output channel. */
    var output: seq<int>

    /** The session as a value of the pure model. */
    function State(): Vm
      reads this
    {
      Vm(mem, input, cursor, output)
    }

    /** `Intcode::exec`: a session on `code` with an empty input channel. */
    constructor (code: seq<int>)
      ensures State() == Boot(code, [])
    {
      mem := FromCode(code);
      input := [];
      cursor := 0;
      output := [];
    }

    /** `Index<u64>`: the cell at `addr`. */
    function At(addr: nat): (v: int)
      reads this
      ensures v == State().mem.Read(addr)
    {
      mem.Read(addr)
    }

    /** `read_vec`: replace the input channel by one that holds `xs`, none of them read yet. */
    method ReadVec(xs: seq<int>)
      modifies this
      ensures State() == old(State()).(input := xs, cursor := 0)
    {
      input := xs;
      cursor := 0;
    }

    /** `write_to`: replace the output channel by a fresh, empty one. */
    method WriteTo()
      modifies this
      ensures State() == old(State()).(output := [])
    {
      output := [];
    }

    /** `read_next`: append `xs` to the input channel, leaving the read position where it was. */
    method ReadNext(xs: seq<int>)
      modifies this
      ensures State() == old(State()).(input := old(input) + xs)
    {
      input := input + xs;
    }

    /** `Iterator::next`: decode the instruction at the pointer and execute it. */
    method Next() returns (r: StepResult)
      modifies this
      ensures (State(), r) == Step(old(State()))
    {
      var decoded := Decode(mem);
      match decoded {
        case BadOpcode(code) =>
          return Faulted(InvalidOpcode(code));
        case Unreachable =>
          return Panicked;
        case Op(op) =>
          var jumped := false;
          var out: Option<int> := None;
          match op {
            case Arith(bin, v1, v2, dst) =>
              mem := mem.Set(dst, bin.Eval(v1, v2));
            case Input(dst) =>
              if cursor >= |input| {
                return Faulted(InvalidRead);
              }
              mem := mem.Set(dst, input[cursor]);
              cursor := cursor + 1;
            case Output(v) =>
              out := Some(v);
              output := output + [v];
            case Jump(ifTrue, v, target) =>
              if ifTrue != (v == 0) {
                mem := mem.(ptr := target);
                jumped := true;
              }
            case Compare(cmp, v1, v2, dst) =>
              mem := mem.Set(dst, if cmp.Eval(v1, v2) then 1 else 0);
            case AdjustBase(v) =>
              mem := mem.(base := mem.base + v);
            case Halt =>
          }
          if !jumped {
            mem := mem.Advance(op.Size());
          }
          r := if op.Halt? then Halted else Produced(out);
      }
    }

    /** `run`: call `next` until `Halt` or the first error, within `fuel` calls. */
    method Run(fuel: nat) returns (r: Outcome<seq<int>>)
      modifies this
      ensures (State(), r) == Intcode.Run(old(State()), fuel)
    {
      ghost var s0 := State();
      var outs: seq<int> := [];
      var n := fuel;
      RunStart(s0, fuel);
      while n > 0
        invariant Intcode.Run(s0, fuel) ==
          (Intcode.Run(State(), n).0, Prepend(outs, Intcode.Run(State(), n).1))
        decreases n
      {
        ghost var before := State();
        var step := Next();
        RunLoopStep(Intcode.Run(s0, fuel), before, n, State(), step, outs);
        match step {
          case Halted =>
            return Done(outs);
          case Faulted(f) =>
            return Failed(f);
          case Panicked =>
            return Crashed;
          case Produced(o) =>
            outs := outs + Outs(o);
            n := n - 1;
        }
      }
      return OutOfFuel;
    }

    /** `run_with`: store the `(address, value)` patches in order, then `run`. */
    method RunWith(patches: seq<(nat, int)>, fuel: nat) returns (r: Outcome<seq<int>>)
      modifies this
      ensures (State(), r) == Intcode.Run(old(State()).(mem := Patched(old(mem), patches)), fuel)
    {
      for i := 0 to |patches|
        invariant State() == old(State()).(mem := Patched(old(mem), patches[..i]))
      {
        var (addr, val) := patches[i];
        assert patches[..i + 1][..i] == patches[..i];
        mem := mem.Set(addr, val);
      }
      assert patches[..|patches|] == patches;
      r := Run(fuel);
    }

    /** `run_to_out`: call `next` until an output, an error or `Halt`, within `fuel` calls. */
    method RunToOut(fuel: nat) returns (r: Outcome<Option<int>>)
      modifies this
      ensures (State(), r) == Intcode.RunToOut(old(State()), fuel)
    {
      var n := fuel;
      ghost var total := Intcode.RunToOut(State(), fuel);
      while n > 0
        invariant total == Intcode.RunToOut(State(), n)
        decreases n
      {
        ghost var before := State();
        var step := Next();
        RunToOutLoopStep(total, before, n, State(), step);
        match step {
          case Halted =>
            return Done(None);
          case Faulted(f) =>
            return Failed(f);
          case Panicked =>
            return Crashed;
          case Produced(o) =>
            if o.Some? {
              return Done(o);
            }
            n := n - 1;
        }
      }
      return OutOfFuel;
    }
  }

  /** Before the loop of `run`, nothing is collected yet. */
  lemma RunStart(s0: Vm, fuel: nat)
    ensures Intcode.Run(s0, fuel) == (Intcode.Run(s0, fuel).0, Prepend([], Intcode.Run(s0, fuel).1))
  {
    var total := Intcode.Run(s0, fuel);
    if total.1.Done? {
      assert [] + total.1.value == total.1.value;
    }
  }

  /**
   * One turn of the loop of `run`: after a step from `before` to `after`
   * yielding `step`, the run has stopped with what was collected, or goes on
   * from `after` with the step's output collected too.
   */
  lemma RunLoopStep(total: (Vm, Outcome<seq<int>>), before: Vm, n: nat, after: Vm, step: StepResult, outs: seq<int>)
    requires n > 0 && Step(before) == (after, step)
    requires total == (Intcode.Run(before, n).0, Prepend(outs, Intcode.Run(before, n).1))
    ensures step.Halted? ==> total == (after, Done(outs))
    ensures step.Faulted? ==> total == (after, Failed(step.fault))
    ensures step.Panicked? ==> total == (after, Crashed)
    ensures step.Produced? ==>
      total == (Intcode.Run(after, n - 1).0, Prepend(outs + Outs(step.out), Intcode.Run(after, n - 1).1))
  {
    IntcodeProps.RunAfterStep(before, n, after, step);
    if step.Halted? {
      assert outs + [] == outs;
    } else if step.Produced? {
      CollectStep(total, Intcode.Run(before, n), Intcode.Run(after, n - 1), outs, step.out);
    }
  }

  /** One turn of the loop of `run_to_out`: it has stopped at `after` with what the step yields, or goes on from `after`. */
  lemma RunToOutLoopStep(total: (Vm, Outcome<Option<int>>), before: Vm, n: nat, after: Vm, step: StepResult)
    requires n > 0 && Step(before) == (after, step)
    requires total == Intcode.RunToOut(before, n)
    ensures step.Halted? ==> total == (after, Done(None))
    ensures step.Faulted? ==> total == (after, Failed(step.fault))
    ensures step.Panicked? ==> total == (after, Crashed)
    ensures step.Produced? && step.out.Some? ==> total == (after, Done(step.out))
    ensures step.Produced? && step.out.None? ==> total == Intcode.RunToOut(after, n - 1)
  {
    IntcodeProps.RunToOutAfterStep(before, n, after, step);
  }

  /**
   * The bookkeeping of the loop of `run`: a run that collected `outs` before
   * reaching `here`, where one step yields `o` and leads on to `next`, has
   * collected `outs` and then `o` before reaching `next`.
   */
  lemma CollectStep(total: (Vm, Outcome<seq<int>>), here: (Vm, Outcome<seq<int>>),
                    next: (Vm, Outcome<seq<int>>), outs: seq<int>, o: Option<int>)
    requires total == (here.0, Prepend(outs, here.1))
    requires here == (next.0, Prepend(Outs(o), next.1))
    ensures total == (next.0, Prepend(outs + Outs(o), next.1))
  {
    if next.1.Done? {
      assert outs + (Outs(o) + next.1.value) == (outs + Outs(o)) + next.1.value;
    }
  }
}
