/**
 * What the Intcode machine of src/intcode.rs promises, proved about the pure
 * layer: decoding of the instruction cell, the effect of each instruction on
 * the pointer, the memory and the channels, and the drivers built on `next`.
 */
module IntcodeProps {
  import opened Wrappers
  import opened Text
  import opened Intcode

  // ---------------------------------------------------------------------------
  // Decoding the instruction cell
  // ---------------------------------------------------------------------------

  function ModeDigit(mode: ParamMode): nat
  {
    match mode
    case Position => 0
    case Immediate => 1
    case Relative => 2
  }

  /** The instruction cell for op-code `code` whose three parameters have the given modes. */
  function InstrCell(code: nat, m1: ParamMode, m2: ParamMode, m3: ParamMode): int
    requires code < 100
  {
    code + 100 * ModeDigit(m1) + 1000 * ModeDigit(m2) + 10000 * ModeDigit(m3)
  }

  lemma Pow10Values()
    ensures Pow10(2) == 100 && Pow10(3) == 1000 && Pow10(4) == 10000
  {
  }

  /**
   * Decoding reads back what the cell encodes: the op-code is the cell modulo
   * 100 and the mode of parameter k is the decimal digit at 10^(k+1).
   */
  lemma CellDecodes(code: nat, m1: ParamMode, m2: ParamMode, m3: ParamMode)
    requires code < 100
    ensures TruncMod(InstrCell(code, m1, m2, m3), 100) == code
    ensures ParamModeOf(InstrCell(code, m1, m2, m3), 1) == Some(m1)
    ensures ParamModeOf(InstrCell(code, m1, m2, m3), 2) == Some(m2)
    ensures ParamModeOf(InstrCell(code, m1, m2, m3), 3) == Some(m3)
  {
    var d1, d2, d3 := ModeDigit(m1), ModeDigit(m2), ModeDigit(m3);
    var c := InstrCell(code, m1, m2, m3);
    Pow10Values();
    assert c == 100 * (d1 + 10 * d2 + 100 * d3) + code;
    assert c / 100 == d1 + 10 * d2 + 100 * d3;
    assert c == 1000 * (d2 + 10 * d3) + (code + 100 * d1);
    assert c / 1000 == d2 + 10 * d3;
    assert c == 10000 * d3 + (code + 100 * d1 + 1000 * d2);
    assert c / 10000 == d3;
  }

  /** A digit other than 0, 1 and 2 in a parameter's place is the decoder's `unreachable!()`. */
  lemma BadModeDigitUnreachable(op: int, param: nat)
    requires op >= 0
    requires (op / Pow10(param + 1)) % 10 > 2
    ensures ParamModeOf(op, param) == None
  {
  }

  /**
   * Rust's `%` keeps the sign of the cell, so a negative cell never holds a
   * known op-code: decoding it reports the negative remainder as invalid.
   */
  lemma NegativeCellInvalid(m: Memory)
    requires m.Instr() < 0
    ensures Decode(m) == BadOpcode(TruncMod(m.Instr(), 100))
    ensures -100 < TruncMod(m.Instr(), 100) <= 0
  {
    TruncDivMod(m.Instr(), 100);
  }

  /** Decoding reports an invalid op-code exactly when the op-code is not in the table. */
  lemma DecodeInvalidIff(m: Memory)
    ensures Decode(m).BadOpcode? <==> !KnownOpcode(TruncMod(m.Instr(), 100))
    ensures Decode(m).BadOpcode? ==> Decode(m).code == TruncMod(m.Instr(), 100)
  {
  }

  /** An immediate-mode write target is the decoder's `unreachable!()`. */
  lemma ImmediateTargetUnreachable(m: Memory)
    requires TruncMod(m.Instr(), 100) == 3
    requires ParamModeOf(m.Instr(), 1) == Some(Immediate)
    ensures Decode(m) == Unreachable
  {
  }

  /** The size of each instruction, as the table gives it. */
  lemma SizeTable(op: Opcode)
    ensures op.Arith? || op.Compare? ==> op.Size() == 4
    ensures op.Jump? ==> op.Size() == 3
    ensures op.Input? || op.Output? || op.AdjustBase? ==> op.Size() == 2
    ensures op.Halt? ==> op.Size() == 1
  {
  }

  // ---------------------------------------------------------------------------
  // One step
  // ---------------------------------------------------------------------------

  /** Only the pointer moves, by `n`. */
  predicate MovedBy(s: Vm, t: Vm, n: nat)
  {
    t.mem.ptr == s.mem.ptr + n && t.mem.base == s.mem.base
  }

  /** The channels are as they were. */
  predicate SameChannels(s: Vm, t: Vm)
  {
    t.input == s.input && t.cursor == s.cursor && t.output == s.output
  }

  /** Every cell but `out` keeps its value, and `out` now holds `val`. */
  ghost predicate WroteOnly(s: Vm, t: Vm, out: nat, val: int)
  {
    && t.mem.Read(out) == val
    && forall a: nat :: a != out ==> t.mem.Read(a) == s.mem.Read(a)
  }

  /**
   * Unless a jump fires or the read fails, the pointer grows by exactly the
   * instruction's size; `Halt` too advances it, by 1.
   */
  lemma StepAdvancesPointer(s: Vm, op: Opcode)
    requires Decode(s.mem) == Op(op)
    requires !op.Jump?
    requires op.Input? ==> s.cursor < |s.input|
    ensures Step(s).0.mem.ptr == s.mem.ptr + op.Size()
    ensures Step(s).1 == (if op.Halt? then Halted else if op.Output? then Produced(Some(op.val)) else Produced(None))
  {
  }

  /** Add and multiply write the sum or the product at the target cell and nowhere else. */
  lemma StepArith(s: Vm, bin: BinOp, v1: int, v2: int, out: nat)
    requires Decode(s.mem) == Op(Arith(bin, v1, v2, out))
    ensures Step(s).1 == Produced(None)
    ensures WroteOnly(s, Step(s).0, out, if bin == Add then v1 + v2 else v1 * v2)
    ensures MovedBy(s, Step(s).0, 4) && SameChannels(s, Step(s).0)
  {
  }

  /** Less-than and equals write 1 or 0 at the target cell and nowhere else. */
  lemma StepCompare(s: Vm, cmp: CmpOp, v1: int, v2: int, out: nat)
    requires Decode(s.mem) == Op(Compare(cmp, v1, v2, out))
    ensures Step(s).1 == Produced(None)
    ensures WroteOnly(s, Step(s).0, out, if (cmp == Lt && v1 < v2) || (cmp == Eq && v1 == v2) then 1 else 0)
    ensures MovedBy(s, Step(s).0, 4) && SameChannels(s, Step(s).0)
  {
  }

  /**
   * Jump-if-true jumps when the value is non-zero, jump-if-false when it is
   * zero; a jump sets the pointer to the target, and nothing else changes.
   */
  lemma StepJump(s: Vm, ifTrue: bool, v: int, target: nat)
    requires Decode(s.mem) == Op(Jump(ifTrue, v, target))
    ensures Step(s).1 == Produced(None)
    ensures Step(s).0.mem.cells == s.mem.cells && Step(s).0.mem.base == s.mem.base
    ensures Step(s).0.mem.ptr == if (ifTrue && v != 0) || (!ifTrue && v == 0) then target else s.mem.ptr + 3
    ensures SameChannels(s, Step(s).0)
  {
  }

  /** Input stores exactly the next unread value at the target, or fails and changes nothing. */
  lemma StepInput(s: Vm, out: nat)
    requires Decode(s.mem) == Op(Input(out))
    ensures s.cursor < |s.input| ==>
      && Step(s).1 == Produced(None)
      && WroteOnly(s, Step(s).0, out, s.input[s.cursor])
      && MovedBy(s, Step(s).0, 2)
      && Step(s).0.cursor == s.cursor + 1
      && Step(s).0.input == s.input && Step(s).0.output == s.output
    ensures s.cursor >= |s.input| ==> Step(s) == (s, Faulted(InvalidRead))
  {
  }

  /** Output appends the value to the output channel and yields it; memory is untouched. */
  lemma StepOutput(s: Vm, v: int)
    requires Decode(s.mem) == Op(Output(v))
    ensures Step(s).1 == Produced(Some(v))
    ensures Step(s).0.output == s.output + [v]
    ensures Step(s).0.mem.cells == s.mem.cells && MovedBy(s, Step(s).0, 2)
    ensures Step(s).0.input == s.input && Step(s).0.cursor == s.cursor
  {
  }

  /** Adjust-base changes only the relative base, by the operand. */
  lemma StepAdjustBase(s: Vm, v: int)
    requires Decode(s.mem) == Op(AdjustBase(v))
    ensures Step(s).1 == Produced(None)
    ensures Step(s).0.mem.cells == s.mem.cells
    ensures Step(s).0.mem.base == s.mem.base + v && Step(s).0.mem.ptr == s.mem.ptr + 2
    ensures SameChannels(s, Step(s).0)
  {
  }

  /** A step that fails or panics leaves the whole session as it was. */
  lemma StepFailureKeepsState(s: Vm)
    requires Step(s).1.Faulted? || Step(s).1.Panicked?
    ensures Step(s).0 == s
  {
  }

  /** Appending to the input does not change a step that did not run out of input. */
  lemma StepMoreInput(s: Vm, more: seq<int>)
    requires Step(s).1 != Faulted(InvalidRead)
    ensures Step(s.(input := s.input + more)).1 == Step(s).1
    ensures Step(s.(input := s.input + more)).0 == Step(s).0.(input := Step(s).0.input + more)
  {
    var t := s.(input := s.input + more);
    assert t.mem == s.mem;
    match Decode(s.mem)
    case Op(op) =>
      if op.Input? {
        assert s.cursor < |s.input|;
        assert t.input[t.cursor] == s.input[s.cursor];
      }
    case _ =>
  }

  // ---------------------------------------------------------------------------
  // The drivers
  // ---------------------------------------------------------------------------

  /** A step appends to the output channel exactly the value it yields, if any. */
  lemma StepOutputLog(s: Vm)
    ensures Step(s).1.Produced? ==>
      Step(s).0.output == s.output + (if Step(s).1.out.Some? then [Step(s).1.out.value] else [])
    ensures !Step(s).1.Produced? ==> Step(s).0.output == s.output
  {
  }

  /** The outputs `run` returns are exactly the values appended to the output channel. */
  lemma {:induction false} RunOutputLog(s: Vm, fuel: nat)
    requires Run(s, fuel).1.Done?
    ensures Run(s, fuel).0.output == s.output + Run(s, fuel).1.value
    decreases fuel
  {
    var (t, r) := Step(s);
    StepOutputLog(s);
    if r.Produced? {
      RunOutputLog(t, fuel - 1);
    }
  }

  /** The first error `run` meets is its result, and the machine is left on the faulting instruction. */
  lemma {:induction false} RunFaultSticky(s: Vm, fuel: nat)
    requires Run(s, fuel).1.Failed?
    ensures Step(Run(s, fuel).0) == (Run(s, fuel).0, Faulted(Run(s, fuel).1.fault))
    decreases fuel
  {
    var (t, r) := Step(s);
    if r.Produced? {
      RunFaultSticky(t, fuel - 1);
    }
  }

  // The next three facts hold of the two loops whatever the step function.

  lemma {:induction false} DriveFuelMonotone(step: Vm -> (Vm, StepResult), s: Vm, fuel: nat, extra: nat)
    requires !Drive(step, s, fuel).1.OutOfFuel?
    ensures Drive(step, s, fuel + extra) == Drive(step, s, fuel)
    decreases fuel
  {
    var (t, r) := step(s);
    if r.Produced? {
      DriveFuelMonotone(step, t, fuel - 1, extra);
    }
  }

  lemma {:induction false} DriveToOutFirst(step: Vm -> (Vm, StepResult), s: Vm, fuel: nat)
    requires Drive(step, s, fuel).1.Done?
    ensures DriveToOut(step, s, fuel).1 ==
      Done(if Drive(step, s, fuel).1.value == [] then None else Some(Drive(step, s, fuel).1.value[0]))
    decreases fuel
  {
    var (t, r) := step(s);
    if r.Produced? && r.out.None? {
      DriveToOutFirst(step, t, fuel - 1);
    }
  }

  lemma {:induction false} DriveToOutResumes(step: Vm -> (Vm, StepResult), s: Vm, fuel: nat)
    requires Drive(step, s, fuel).1.Done?
    ensures Drive(step, s, fuel).1.value != [] ==>
      Drive(step, DriveToOut(step, s, fuel).0, fuel) ==
      (Drive(step, s, fuel).0, Done(Drive(step, s, fuel).1.value[1..]))
    ensures Drive(step, s, fuel).1.value == [] ==> DriveToOut(step, s, fuel).0 == Drive(step, s, fuel).0
    decreases fuel
  {
    var (t, r) := step(s);
    if r.Produced? {
      var next := Drive(step, t, fuel - 1);
      if r.out.Some? {
        DriveFuelMonotone(step, t, fuel - 1, 1);
        assert Drive(step, s, fuel).1.value == [r.out.value] + next.1.value;
      } else {
        assert [] + next.1.value == next.1.value;
        DriveToOutResumes(step, t, fuel - 1);
        if next.1.value != [] {
          DriveFuelMonotone(step, DriveToOut(step, t, fuel - 1).0, fuel - 1, 1);
        }
      }
    }
  }

  lemma DriveAfterStep(step: Vm -> (Vm, StepResult), s: Vm, fuel: nat, t: Vm, r: StepResult)
    requires fuel > 0 && step(s) == (t, r)
    ensures r.Halted? ==> Drive(step, s, fuel) == (t, Done([]))
    ensures r.Faulted? ==> Drive(step, s, fuel) == (t, Failed(r.fault))
    ensures r.Panicked? ==> Drive(step, s, fuel) == (t, Crashed)
    ensures r.Produced? ==>
      Drive(step, s, fuel) == (Drive(step, t, fuel - 1).0, Prepend(Outs(r.out), Drive(step, t, fuel - 1).1))
    ensures r.Halted? ==> DriveToOut(step, s, fuel) == (t, Done(None))
    ensures r.Faulted? ==> DriveToOut(step, s, fuel) == (t, Failed(r.fault))
    ensures r.Panicked? ==> DriveToOut(step, s, fuel) == (t, Crashed)
    ensures r.Produced? ==>
      DriveToOut(step, s, fuel) == if r.out.Some? then (t, Done(r.out)) else DriveToOut(step, t, fuel - 1)
  {
  }

  /**
   * One step of `run`: what the step yields decides whether the driver stops
   * and with what, or goes on from the next machine with one step less.
   */
  lemma RunAfterStep(s: Vm, fuel: nat, t: Vm, r: StepResult)
    requires fuel > 0 && Step(s) == (t, r)
    ensures r.Halted? ==> Run(s, fuel) == (t, Done([]))
    ensures r.Faulted? ==> Run(s, fuel) == (t, Failed(r.fault))
    ensures r.Panicked? ==> Run(s, fuel) == (t, Crashed)
    ensures r.Produced? ==>
      Run(s, fuel) == (Run(t, fuel - 1).0, Prepend(Outs(r.out), Run(t, fuel - 1).1))
  {
    DriveAfterStep(Step, s, fuel, t, r);
  }

  /** One step of `run_to_out`: it stops at `Halt`, an error or an output, and otherwise goes on with one step less. */
  lemma RunToOutAfterStep(s: Vm, fuel: nat, t: Vm, r: StepResult)
    requires fuel > 0 && Step(s) == (t, r)
    ensures r.Halted? ==> RunToOut(s, fuel) == (t, Done(None))
    ensures r.Faulted? ==> RunToOut(s, fuel) == (t, Failed(r.fault))
    ensures r.Panicked? ==> RunToOut(s, fuel) == (t, Crashed)
    ensures r.Produced? ==>
      RunToOut(s, fuel) == if r.out.Some? then (t, Done(r.out)) else RunToOut(t, fuel - 1)
  {
    DriveAfterStep(Step, s, fuel, t, r);
  }

  /** The step budget only bounds the run: a run that finished within it finishes the same with more. */
  lemma RunFuelMonotone(s: Vm, fuel: nat, extra: nat)
    requires !Run(s, fuel).1.OutOfFuel?
    ensures Run(s, fuel + extra) == Run(s, fuel)
  {
    DriveFuelMonotone(Step, s, fuel, extra);
  }

  /**
   * `run_to_out` stops at the first output `run` would return (or at `Halt`,
   * with `None`), and running on from where it stopped returns the remaining
   * outputs of `run`, ending in the same machine: suspending after an output
   * loses nothing.
   */
  lemma RunToOutResumes(s: Vm, fuel: nat)
    requires Run(s, fuel).1.Done?
    ensures RunToOut(s, fuel).1 ==
      Done(if Run(s, fuel).1.value == [] then None else Some(Run(s, fuel).1.value[0]))
    ensures Run(s, fuel).1.value != [] ==>
      Run(RunToOut(s, fuel).0, fuel) == (Run(s, fuel).0, Done(Run(s, fuel).1.value[1..]))
    ensures Run(s, fuel).1.value == [] ==> RunToOut(s, fuel).0 == Run(s, fuel).0
  {
    DriveToOutFirst(Step, s, fuel);
    DriveToOutResumes(Step, s, fuel);
  }

  /** The value patch `patches` leaves at `addr`: the last one aimed at it, else what was there. */
  function LastPatch(patches: seq<(nat, int)>, addr: nat, old_val: int): int
    decreases |patches|
  {
    if |patches| == 0 then old_val
    else if patches[|patches| - 1].0 == addr then patches[|patches| - 1].1
    else LastPatch(patches[..|patches| - 1], addr, old_val)
  }

  /** Patching overwrites the patched cells, the last patch winning, and nothing else. */
  lemma {:induction false} PatchedRead(m: Memory, patches: seq<(nat, int)>, addr: nat)
    ensures Patched(m, patches).Read(addr) == LastPatch(patches, addr, m.Read(addr))
    ensures Patched(m, patches).ptr == m.ptr && Patched(m, patches).base == m.base
    decreases |patches|
  {
    if |patches| > 0 {
      PatchedRead(m, patches[..|patches| - 1], addr);
    }
  }

  // ---------------------------------------------------------------------------
  // Program text
  // ---------------------------------------------------------------------------

  function Printed(code: seq<int>): (r: seq<string>)
    ensures |r| == |code|
  {
    if |code| == 0 then [] else [IntToString(code[0])] + Printed(code[1..])
  }

  lemma IntToStringShape(x: int)
    ensures ',' !in IntToString(x)
    ensures !IsWhitespace(IntToString(x)[0]) && !IsWhitespace(IntToString(x)[|IntToString(x)| - 1])
  {
    var s := IntToString(x);
    if x < 0 {
      assert s[1..] == NatToString(-x);
      assert forall i :: 1 <= i < |s| ==> IsDigit(s[i]);
    }
  }

  lemma {:induction false} ParsePrinted(code: seq<int>)
    requires forall i :: 0 <= i < |code| ==> IsI64(code[i])
    ensures ParsePieces(Printed(code)) == Some(code)
    decreases |code|
  {
    if |code| > 0 {
      ParseI64OfToString(code[0]);
      ParsePrinted(code[1..]);
      assert Printed(code)[1..] == Printed(code[1..]);
      assert [code[0]] + code[1..] == code;
    }
  }

  /** Printing a program as comma-separated decimals and parsing it gives the program back. */
  lemma ParseProgramRoundTrip(code: seq<int>)
    requires |code| > 0
    requires forall i :: 0 <= i < |code| ==> IsI64(code[i])
    ensures ParseProgram(Join(Printed(code), ',')) == Ok(code)
  {
    var pieces := Printed(code);
    forall i | 0 <= i < |pieces|
      ensures ',' !in pieces[i] && |pieces[i]| > 0
      ensures !IsWhitespace(pieces[i][0]) && !IsWhitespace(pieces[i][|pieces[i]| - 1])
    {
      PrintedAt(code, i);
      IntToStringShape(code[i]);
    }
    var text := Join(pieces, ',');
    JoinEnds(pieces, ',');
    TrimNoop(text);
    SplitJoin(pieces, ',');
    ParsePrinted(code);
  }

  lemma {:induction false} PrintedAt(code: seq<int>, i: nat)
    requires i < |code|
    ensures Printed(code)[i] == IntToString(code[i])
    decreases i
  {
    if i > 0 {
      PrintedAt(code[1..], i - 1);
    }
  }
}
