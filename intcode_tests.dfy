/**
 * The unit-test scenarios of src/intcode.rs, proved about the model: small
 * programs run from a fresh session, step by step, to the memory or the
 * outputs the tests expect.  The comparison programs are proved for every
 * input value, not just the two the tests try.
 */
module IntcodeTests {
  import opened Wrappers
  import opened Intcode
  import IntcodeProps

  /** The outputs yielded along a sequence of step results. */
  function TraceOuts(rs: seq<StepResult>): seq<int>
  {
    if |rs| == 0 then [] else (if rs[0].Produced? then Outs(rs[0].out) else []) + TraceOuts(rs[1..])
  }

  /** A run that follows a halting trace of steps ends where the trace ends, with its outputs. */
  lemma {:induction false} DriveTrace(step: Vm -> (Vm, StepResult), ss: seq<Vm>, rs: seq<StepResult>)
    requires |ss| == |rs| + 1 && |rs| > 0
    requires forall i :: 0 <= i < |rs| ==> step(ss[i]) == (ss[i + 1], rs[i])
    requires forall i :: 0 <= i < |rs| - 1 ==> rs[i].Produced?
    requires rs[|rs| - 1].Halted?
    ensures Drive(step, ss[0], |rs|) == (ss[|rs|], Done(TraceOuts(rs)))
    decreases |rs|
  {
    IntcodeProps.DriveAfterStep(step, ss[0], |rs|, ss[1], rs[0]);
    if |rs| == 1 {
      var e: seq<int> := [];
      assert TraceOuts(rs) == e + e;
    } else {
      DriveTrace(step, ss[1..], rs[1..]);
    }
  }

  /** A write inside the loaded program is the program with that cell replaced. */
  lemma SetWithin(code: seq<int>, addr: nat, val: int)
    requires addr < |code|
    ensures FromCode(code).Set(addr, val).cells == FromCode(code[addr := val]).cells
  {
  }

  /** The op-code and modes of the cells `1101`, `1102`, `1107` and `1108`: two immediate operands and a position target. */
  lemma ImmediatePairCells()
    ensures forall c :: c in {1101, 1102, 1107, 1108} ==>
      ParamModeOf(c, 1) == Some(Immediate) && ParamModeOf(c, 2) == Some(Immediate) &&
      ParamModeOf(c, 3) == Some(Position) && TruncMod(c, 100) == c - 1100
  {
    IntcodeProps.CellDecodes(1, Immediate, Immediate, Position);
    IntcodeProps.CellDecodes(2, Immediate, Immediate, Position);
    IntcodeProps.CellDecodes(7, Immediate, Immediate, Position);
    IntcodeProps.CellDecodes(8, Immediate, Immediate, Position);
  }

  /** A three-operand instruction with two immediate operands and a position target decodes to its operation on the cells as they stand. */
  lemma DecodeImmediatePair(m: Memory, a: int, b: int, c: nat)
    requires m.Instr() in {1101, 1102, 1107, 1108} && c < 100
    requires m.Read(m.ptr + 1) == a && m.Read(m.ptr + 2) == b && m.Read(m.ptr + 3) == c
    ensures m.Instr() == 1101 ==> Decode(m) == Op(Arith(Add, a, b, c))
    ensures m.Instr() == 1102 ==> Decode(m) == Op(Arith(Mul, a, b, c))
    ensures m.Instr() == 1107 ==> Decode(m) == Op(Compare(Lt, a, b, c))
    ensures m.Instr() == 1108 ==> Decode(m) == Op(Compare(Eq, a, b, c))
  {
    ImmediatePairCells();
    assert AsU64(c) == c;
  }

  /** The cells `1` and `2` take all three parameters in position mode. */
  lemma PositionModes(op: int)
    requires op == 1 || op == 2
    ensures ParamModeOf(op, 1) == Some(Position) && ParamModeOf(op, 2) == Some(Position)
    ensures ParamModeOf(op, 3) == Some(Position)
  {
    IntcodeProps.CellDecodes(op, Position, Position, Position);
    assert IntcodeProps.InstrCell(op, Position, Position, Position) == op;
  }

  /** An add or multiply in position mode with small addresses decodes to its operation on the addressed cells. */
  lemma DecodePositionArith(m: Memory, a: nat, b: nat, c: nat)
    requires m.Instr() == 1 || m.Instr() == 2
    requires a < 100 && b < 100 && c < 100
    requires m.Read(m.ptr + 1) == a && m.Read(m.ptr + 2) == b && m.Read(m.ptr + 3) == c
    ensures Decode(m) == Op(Arith(if m.Instr() == 1 then Add else Mul, m.Read(a), m.Read(b), c))
  {
    PositionModes(m.Instr());
    assert TruncMod(m.Instr(), 100) == m.Instr();
    assert AsU64(a) == a && AsU64(b) == b && AsU64(c) == c;
    assert m.InParam(1) == Some(m.Read(a));
    assert m.InParam(2) == Some(m.Read(b));
    assert m.OutParam(3) == Some(c);
  }

  // ---------------------------------------------------------------------------
  // test_empty_io, first program: 1,0,0,0,99 becomes 2,0,0,0,99
  // ---------------------------------------------------------------------------

  function AddS(k: nat): Vm
  {
    var s0 := Boot([1, 0, 0, 0, 99], []);
    var s1 := s0.(mem := s0.mem.Set(0, 2).Advance(4));
    if k == 0 then s0 else if k == 1 then s1 else s1.(mem := s1.mem.Advance(1))
  }

  lemma AddStep0()
    ensures Step(AddS(0)) == (AddS(1), Produced(None))
  {
    var m := AddS(0).mem;
    assert m.Instr() == 1 && m.Read(1) == 0 && m.Read(2) == 0 && m.Read(3) == 0;
    DecodePositionArith(m, 0, 0, 0);
  }

  lemma AddStep1()
    ensures AddS(2).mem.cells == FromCode([2, 0, 0, 0, 99]).cells
    ensures Step(AddS(1)) == (AddS(2), Halted)
  {
    SetWithin([1, 0, 0, 0, 99], 0, 2);
    assert [1, 0, 0, 0, 99][0 := 2] == [2, 0, 0, 0, 99];
    assert AddS(1).mem.Read(4) == FromCode([2, 0, 0, 0, 99]).Read(4) == 99;
  }

  /** `1,0,0,0,99` adds cell 0 to itself into cell 0 and halts: memory 2,0,0,0,99, no output. */
  lemma EmptyIoAdd()
    ensures Run(Boot([1, 0, 0, 0, 99], []), 2).1 == Done([])
    ensures Run(Boot([1, 0, 0, 0, 99], []), 2).0.mem.cells == FromCode([2, 0, 0, 0, 99]).cells
  {
    AddStep0();
    AddStep1();
    IntcodeProps.RunAfterStep(AddS(1), 1, AddS(2), Halted);
    IntcodeProps.RunAfterStep(AddS(0), 2, AddS(1), Produced(None));
    PrependNone(Done([]));
    assert Run(Boot([1, 0, 0, 0, 99], []), 2).0 == AddS(2);
  }

  // ---------------------------------------------------------------------------
  // test_empty_io, second program: 2,3,0,3,99 becomes 2,3,0,6,99
  // ---------------------------------------------------------------------------

  function MulSelfS(k: nat): Vm
  {
    var s0 := Boot([2, 3, 0, 3, 99], []);
    var s1 := s0.(mem := s0.mem.Set(3, 6).Advance(4));
    if k == 0 then s0 else if k == 1 then s1 else s1.(mem := s1.mem.Advance(1))
  }

  lemma MulSelfStep0()
    ensures Step(MulSelfS(0)) == (MulSelfS(1), Produced(None))
  {
    var m := MulSelfS(0).mem;
    assert m.Instr() == 2 && m.Read(1) == 3 && m.Read(2) == 0 && m.Read(3) == 3;
    DecodePositionArith(m, 3, 0, 3);
  }

  lemma MulSelfStep1()
    ensures MulSelfS(2).mem.cells == FromCode([2, 3, 0, 6, 99]).cells
    ensures Step(MulSelfS(1)) == (MulSelfS(2), Halted)
  {
    SetWithin([2, 3, 0, 3, 99], 3, 6);
    assert [2, 3, 0, 3, 99][3 := 6] == [2, 3, 0, 6, 99];
    assert MulSelfS(1).mem.Read(4) == FromCode([2, 3, 0, 6, 99]).Read(4) == 99;
  }

  /** `2,3,0,3,99` multiplies cells 3 and 0 into cell 3 and halts: memory 2,3,0,6,99. */
  lemma EmptyIoMul()
    ensures Run(Boot([2, 3, 0, 3, 99], []), 2).1 == Done([])
    ensures Run(Boot([2, 3, 0, 3, 99], []), 2).0.mem.cells == FromCode([2, 3, 0, 6, 99]).cells
  {
    MulSelfStep0();
    MulSelfStep1();
    IntcodeProps.RunAfterStep(MulSelfS(1), 1, MulSelfS(2), Halted);
    IntcodeProps.RunAfterStep(MulSelfS(0), 2, MulSelfS(1), Produced(None));
    PrependNone(Done([]));
    assert Run(Boot([2, 3, 0, 3, 99], []), 2).0 == MulSelfS(2);
  }

  // ---------------------------------------------------------------------------
  // test_empty_io, third program: 2,4,4,5,99,0 becomes 2,4,4,5,99,9801
  // ---------------------------------------------------------------------------

  function SquareS(k: nat): Vm
  {
    var s0 := Boot([2, 4, 4, 5, 99, 0], []);
    var s1 := s0.(mem := s0.mem.Set(5, 9801).Advance(4));
    if k == 0 then s0 else if k == 1 then s1 else s1.(mem := s1.mem.Advance(1))
  }

  lemma SquareStep0()
    ensures Step(SquareS(0)) == (SquareS(1), Produced(None))
  {
    var m := SquareS(0).mem;
    assert m.Instr() == 2 && m.Read(1) == 4 && m.Read(2) == 4 && m.Read(3) == 5 && m.Read(4) == 99;
    DecodePositionArith(m, 4, 4, 5);
  }

  lemma SquareStep1()
    ensures SquareS(2).mem.cells == FromCode([2, 4, 4, 5, 99, 9801]).cells
    ensures Step(SquareS(1)) == (SquareS(2), Halted)
  {
    SetWithin([2, 4, 4, 5, 99, 0], 5, 9801);
    assert [2, 4, 4, 5, 99, 0][5 := 9801] == [2, 4, 4, 5, 99, 9801];
    assert SquareS(1).mem.Read(4) == FromCode([2, 4, 4, 5, 99, 9801]).Read(4) == 99;
  }

  /** `2,4,4,5,99,0` squares the halt code into its last cell: memory 2,4,4,5,99,9801. */
  lemma EmptyIoSquare(s: Vm)
    requires s == Boot([2, 4, 4, 5, 99, 0], [])
    ensures Run(s, 2).1 == Done([])
    ensures Run(s, 2).0.mem.cells == FromCode([2, 4, 4, 5, 99, 9801]).cells
  {
    SquareStep0();
    SquareStep1();
    IntcodeProps.RunAfterStep(SquareS(1), 1, SquareS(2), Halted);
    IntcodeProps.RunAfterStep(SquareS(0), 2, SquareS(1), Produced(None));
    PrependNone(Done([]));
    assert Run(s, 2).0 == SquareS(2);
  }

  // ---------------------------------------------------------------------------
  // test_empty_io, fourth program: 1,1,1,4,99,5,6,0,99 rewrites its own halt
  // into a multiplication and becomes 30,1,1,4,2,5,6,0,99
  // ---------------------------------------------------------------------------

  function RewriteS(k: nat): Vm
  {
    var s0 := Boot([1, 1, 1, 4, 99, 5, 6, 0, 99], []);
    var s1 := s0.(mem := s0.mem.Set(4, 2).Advance(4));
    var s2 := s1.(mem := s1.mem.Set(0, 30).Advance(4));
    if k == 0 then s0 else if k == 1 then s1 else if k == 2 then s2 else s2.(mem := s2.mem.Advance(1))
  }

  lemma RewriteStep0()
    ensures Step(RewriteS(0)) == (RewriteS(1), Produced(None))
  {
    var m := RewriteS(0).mem;
    assert m.Instr() == 1 && m.Read(1) == 1 && m.Read(2) == 1 && m.Read(3) == 4;
    DecodePositionArith(m, 1, 1, 4);
  }

  lemma RewriteStep1()
    ensures Step(RewriteS(1)) == (RewriteS(2), Produced(None))
  {
    var m := RewriteS(1).mem;
    assert m.ptr == 4 && m.Instr() == 2 && m.Read(5) == 5 && m.Read(6) == 6 && m.Read(7) == 0;
    DecodePositionArith(m, 5, 6, 0);
  }

  lemma RewriteStep2()
    ensures RewriteS(3).mem.cells == FromCode([30, 1, 1, 4, 2, 5, 6, 0, 99]).cells
    ensures Step(RewriteS(2)) == (RewriteS(3), Halted)
  {
    var code := [1, 1, 1, 4, 99, 5, 6, 0, 99];
    SetWithin(code, 4, 2);
    SetWithin(code[4 := 2], 0, 30);
    assert code[4 := 2][0 := 30] == [30, 1, 1, 4, 2, 5, 6, 0, 99];
    assert RewriteS(2).mem.Read(8) == FromCode([30, 1, 1, 4, 2, 5, 6, 0, 99]).Read(8) == 99;
  }

  lemma RewriteRun()
    ensures Run(RewriteS(0), 3) == (RewriteS(3), Done([]))
  {
    RewriteStep0();
    RewriteStep1();
    RewriteStep2();
    IntcodeProps.RunAfterStep(RewriteS(2), 1, RewriteS(3), Halted);
    IntcodeProps.RunAfterStep(RewriteS(1), 2, RewriteS(2), Produced(None));
    IntcodeProps.RunAfterStep(RewriteS(0), 3, RewriteS(1), Produced(None));
    PrependNone(Done([]));
  }

  /** The fourth program first turns its `99` into a multiplication, which then runs: memory 30,1,1,4,2,5,6,0,99. */
  lemma EmptyIoRewrite(s: Vm)
    requires s == Boot([1, 1, 1, 4, 99, 5, 6, 0, 99], [])
    ensures Run(s, 3).1 == Done([])
    ensures Run(s, 3).0.mem.cells == FromCode([30, 1, 1, 4, 2, 5, 6, 0, 99]).cells
  {
    RewriteRun();
    RewriteStep2();
    assert Run(s, 3).0 == RewriteS(3);
  }

  // ---------------------------------------------------------------------------
  // test_param_mode: 1101,100,-1,4,0 stores 100 + -1 over its last cell
  // ---------------------------------------------------------------------------

  function ModeS(k: nat): Vm
  {
    var s0 := Boot([1101, 100, -1, 4, 0], []);
    var s1 := s0.(mem := s0.mem.Set(4, 99).Advance(4));
    if k == 0 then s0 else if k == 1 then s1 else s1.(mem := s1.mem.Advance(1))
  }

  lemma ModeStep0()
    ensures Step(ModeS(0)) == (ModeS(1), Produced(None))
  {
    var m := ModeS(0).mem;
    assert m.Instr() == 1101 && m.Read(1) == 100 && m.Read(2) == -1 && m.Read(3) == 4;
    DecodeImmediatePair(m, 100, -1, 4);
  }

  lemma ModeStep1()
    ensures ModeS(2).mem.cells == FromCode([1101, 100, -1, 4, 99]).cells
    ensures Step(ModeS(1)) == (ModeS(2), Halted)
  {
    SetWithin([1101, 100, -1, 4, 0], 4, 99);
    assert [1101, 100, -1, 4, 0][4 := 99] == [1101, 100, -1, 4, 99];
    assert ModeS(1).mem.Read(4) == FromCode([1101, 100, -1, 4, 99]).Read(4) == 99;
  }

  /** Immediate operands are used as they stand: the program writes `Halt` over its last cell. */
  lemma ParamModeImmediate()
    ensures Run(Boot([1101, 100, -1, 4, 0], []), 2).1 == Done([])
    ensures Run(Boot([1101, 100, -1, 4, 0], []), 2).0.mem.cells == FromCode([1101, 100, -1, 4, 99]).cells
  {
    ModeStep0();
    ModeStep1();
    IntcodeProps.RunAfterStep(ModeS(1), 1, ModeS(2), Halted);
    IntcodeProps.RunAfterStep(ModeS(0), 2, ModeS(1), Produced(None));
    PrependNone(Done([]));
    assert Run(Boot([1101, 100, -1, 4, 0], []), 2).0 == ModeS(2);
  }

  // ---------------------------------------------------------------------------
  // test_echo: 3,0,4,0,99 with input 1 yields 1 from run_to_out
  // ---------------------------------------------------------------------------

  function EchoS(k: nat): Vm
  {
    var s0 := Boot([3, 0, 4, 0, 99], [1]);
    var s1 := s0.(mem := s0.mem.Set(0, 1).Advance(2), cursor := 1);
    if k == 0 then s0 else s1.(mem := s1.mem.Advance(2), output := [1])
  }

  lemma EchoStep0()
    ensures Step(EchoS(0)) == (EchoS(1).(mem := EchoS(1).mem.(ptr := 2), output := []), Produced(None))
  {
    var m := EchoS(0).mem;
    assert m.Instr() == 3 && m.Read(1) == 0;
    assert ParamModeOf(3, 1) == Some(Position);
    assert Decode(m) == Op(Input(0));
  }

  lemma EchoStep1()
    ensures Step(EchoS(1).(mem := EchoS(1).mem.(ptr := 2), output := [])) == (EchoS(1), Produced(Some(1)))
  {
    var s := EchoS(1).(mem := EchoS(1).mem.(ptr := 2), output := []);
    var m := s.mem;
    assert m.Instr() == 4 && m.Read(3) == 0 && m.Read(0) == 1;
    assert ParamModeOf(4, 1) == Some(Position);
    assert Decode(m) == Op(Output(1));
    var e: seq<int> := [];
    assert e + [1] == [1];
  }

  /** The echo program reads its input and `run_to_out` stops at the output, with that value. */
  lemma Echo()
    ensures RunToOut(Boot([3, 0, 4, 0, 99], [1]), 2) == (EchoS(1), Done(Some(1)))
  {
    var s1 := EchoS(1).(mem := EchoS(1).mem.(ptr := 2), output := []);
    EchoStep0();
    EchoStep1();
    IntcodeProps.RunToOutAfterStep(EchoS(0), 2, s1, Produced(None));
    IntcodeProps.RunToOutAfterStep(s1, 1, EchoS(1), Produced(Some(1)));
  }

  // ---------------------------------------------------------------------------
  // test_big_number: values beyond 32 bits
  // ---------------------------------------------------------------------------

  function BigS(k: nat): Vm
  {
    var s0 := Boot([104, 1125899906842624, 99], []);
    var s1 := s0.(mem := s0.mem.Advance(2), output := [1125899906842624]);
    if k == 0 then s0 else if k == 1 then s1 else s1.(mem := s1.mem.Advance(1))
  }

  lemma BigStep0()
    ensures Step(BigS(0)) == (BigS(1), Produced(Some(1125899906842624)))
  {
    var m := BigS(0).mem;
    assert m.Instr() == 104 && m.Read(1) == 1125899906842624;
    assert ParamModeOf(104, 1) == Some(Immediate);
    assert Decode(m) == Op(Output(1125899906842624));
    var e: seq<int> := [];
    assert e + [1125899906842624] == [1125899906842624];
  }

  /** An immediate output of a 51-bit value is output unchanged. */
  lemma BigOutput()
    ensures Run(Boot([104, 1125899906842624, 99], []), 2).1 == Done([1125899906842624])
  {
    BigStep0();
    assert BigS(1).mem.Read(2) == 99;
    IntcodeProps.RunAfterStep(BigS(1), 1, BigS(2), Halted);
    IntcodeProps.RunAfterStep(BigS(0), 2, BigS(1), Produced(Some(1125899906842624)));
    assert [1125899906842624] + [] == [1125899906842624];
  }

  function MulS(a: int, b: int, k: nat): Vm
  {
    var s0 := Boot([1102, a, b, 7, 4, 7, 99, 0], []);
    var s1 := s0.(mem := s0.mem.Set(7, a * b).Advance(4));
    var s2 := s1.(mem := s1.mem.Advance(2), output := [a * b]);
    if k == 0 then s0 else if k == 1 then s1 else if k == 2 then s2 else s2.(mem := s2.mem.Advance(1))
  }

  lemma MulStep0(a: int, b: int)
    ensures Step(MulS(a, b, 0)) == (MulS(a, b, 1), Produced(None))
  {
    var m := MulS(a, b, 0).mem;
    assert m.Instr() == 1102 && m.Read(1) == a && m.Read(2) == b && m.Read(3) == 7;
    DecodeImmediatePair(m, a, b, 7);
  }

  lemma MulDecode1(a: int, b: int)
    ensures Decode(MulS(a, b, 1).mem) == Op(Output(a * b))
  {
    var m := MulS(a, b, 1).mem;
    assert m.ptr == 4 && m.Read(4) == 4 && m.Read(5) == 7 && m.Read(7) == a * b;
    assert ParamModeOf(4, 1) == Some(Position);
  }

  lemma MulStep1(a: int, b: int)
    ensures Step(MulS(a, b, 1)) == (MulS(a, b, 2), Produced(Some(a * b)))
  {
    MulDecode1(a, b);
    var e: seq<int> := [];
    assert e + [a * b] == [a * b];
  }

  lemma MulStep2(a: int, b: int)
    ensures Step(MulS(a, b, 2)) == (MulS(a, b, 3), Halted)
  {
    assert MulS(a, b, 2).mem.Read(6) == 99;
  }

  /** The program multiplies its two immediate operands and outputs the product. */
  lemma Product(a: int, b: int)
    ensures Run(Boot([1102, a, b, 7, 4, 7, 99, 0], []), 3).1 == Done([a * b])
  {
    MulStep0(a, b);
    MulStep1(a, b);
    MulStep2(a, b);
    IntcodeProps.DriveAfterStep(Step, MulS(a, b, 2), 1, MulS(a, b, 3), Halted);
    IntcodeProps.DriveAfterStep(Step, MulS(a, b, 1), 2, MulS(a, b, 2), Produced(Some(a * b)));
    IntcodeProps.DriveAfterStep(Step, MulS(a, b, 0), 3, MulS(a, b, 1), Produced(None));
    var e: seq<int> := [];
    assert e + ([a * b] + e) == [a * b];
  }

  /** The test's instance: a product beyond 32 bits is computed exactly. */
  lemma BigProduct()
    ensures Run(Boot([1102, 34915192, 34915192, 7, 4, 7, 99, 0], []), 3).1 == Done([1219070632396864])
  {
    Product(34915192, 34915192);
  }

  // ---------------------------------------------------------------------------
  // test_eq, second program: 3,3,1108,-1,8,3,4,3,99 outputs 1 iff its input is equal to 8
  // ---------------------------------------------------------------------------

  function EqS(x: int, k: nat): Vm
  {
    var b := if x == 8 then 1 else 0;
    var s0 := Boot([3, 3, 1108, -1, 8, 3, 4, 3, 99], [x]);
    var s1 := s0.(mem := s0.mem.Set(3, x).Advance(2), cursor := 1);
    var s2 := s1.(mem := s1.mem.Set(3, b).Advance(4));
    var s3 := s2.(mem := s2.mem.Advance(2), output := [b]);
    if k == 0 then s0 else if k == 1 then s1 else if k == 2 then s2 else if k == 3 then s3
    else s3.(mem := s3.mem.Advance(1))
  }

  lemma EqStep0(x: int)
    ensures Step(EqS(x, 0)) == (EqS(x, 1), Produced(None))
  {
    var m := EqS(x, 0).mem;
    assert m.Instr() == 3 && m.Read(1) == 3;
    assert ParamModeOf(3, 1) == Some(Position);
    assert Decode(m) == Op(Input(3));
  }

  lemma EqDecode1(x: int)
    ensures Decode(EqS(x, 1).mem) == Op(Compare(Eq, x, 8, 3))
  {
    var m := EqS(x, 1).mem;
    assert m.ptr == 2 && m.Read(2) == 1108 && m.Read(3) == x && m.Read(4) == 8 && m.Read(5) == 3;
    DecodeImmediatePair(m, x, 8, 3);
  }

  lemma EqStep1(x: int)
    ensures Step(EqS(x, 1)) == (EqS(x, 2), Produced(None))
  {
    EqDecode1(x);
    var s := EqS(x, 1);
    var b := if x == 8 then 1 else 0;
    assert Step(s) == Execute(s, Compare(Eq, x, 8, 3));
    assert Eq.Eval(x, 8) <==> b == 1;
    assert EqS(x, 2) == s.(mem := s.mem.Set(3, b).Advance(4));
  }

  lemma EqStep2(x: int)
    ensures Step(EqS(x, 2)) == (EqS(x, 3), Produced(Some(if x == 8 then 1 else 0)))
  {
    var b := if x == 8 then 1 else 0;
    var m := EqS(x, 2).mem;
    assert m.ptr == 6 && m.Read(6) == 4 && m.Read(7) == 3 && m.Read(3) == b;
    assert ParamModeOf(4, 1) == Some(Position);
    assert Decode(m) == Op(Output(b));
    var e: seq<int> := [];
    assert e + [b] == [b];
  }

  lemma EqStep3(x: int)
    ensures Step(EqS(x, 3)) == (EqS(x, 4), Halted)
  {
    var m := EqS(x, 3).mem;
    assert m.ptr == 8 && m.Read(8) == 99;
  }

  /** The program reads one value and outputs 1 if it is equal to 8, else 0, for every input. */
  lemma EqualsEight(x: int)
    ensures Run(Boot([3, 3, 1108, -1, 8, 3, 4, 3, 99], [x]), 4).1 == Done([if x == 8 then 1 else 0])
  {
    var b := if x == 8 then 1 else 0;
    EqStep0(x);
    EqStep1(x);
    EqStep2(x);
    EqStep3(x);
    IntcodeProps.DriveAfterStep(Step, EqS(x, 3), 1, EqS(x, 4), Halted);
    IntcodeProps.DriveAfterStep(Step, EqS(x, 2), 2, EqS(x, 3), Produced(Some(b)));
    IntcodeProps.DriveAfterStep(Step, EqS(x, 1), 3, EqS(x, 2), Produced(None));
    IntcodeProps.DriveAfterStep(Step, EqS(x, 0), 4, EqS(x, 1), Produced(None));
    var e: seq<int> := [];
    assert e + (e + ([b] + e)) == [b];
  }

  // ---------------------------------------------------------------------------
  // test_lt, second program: 3,3,1107,-1,8,3,4,3,99 outputs 1 iff its input is less than 8
  // ---------------------------------------------------------------------------

  function LtS(x: int, k: nat): Vm
  {
    var b := if x < 8 then 1 else 0;
    var s0 := Boot([3, 3, 1107, -1, 8, 3, 4, 3, 99], [x]);
    var s1 := s0.(mem := s0.mem.Set(3, x).Advance(2), cursor := 1);
    var s2 := s1.(mem := s1.mem.Set(3, b).Advance(4));
    var s3 := s2.(mem := s2.mem.Advance(2), output := [b]);
    if k == 0 then s0 else if k == 1 then s1 else if k == 2 then s2 else if k == 3 then s3
    else s3.(mem := s3.mem.Advance(1))
  }

  lemma LtStep0(x: int)
    ensures Step(LtS(x, 0)) == (LtS(x, 1), Produced(None))
  {
    var m := LtS(x, 0).mem;
    assert m.Instr() == 3 && m.Read(1) == 3;
    assert ParamModeOf(3, 1) == Some(Position);
    assert Decode(m) == Op(Input(3));
  }

  lemma LtDecode1(x: int)
    ensures Decode(LtS(x, 1).mem) == Op(Compare(Lt, x, 8, 3))
  {
    var m := LtS(x, 1).mem;
    assert m.ptr == 2 && m.Read(2) == 1107 && m.Read(3) == x && m.Read(4) == 8 && m.Read(5) == 3;
    DecodeImmediatePair(m, x, 8, 3);
  }

  lemma LtStep1(x: int)
    ensures Step(LtS(x, 1)) == (LtS(x, 2), Produced(None))
  {
    LtDecode1(x);
    var s := LtS(x, 1);
    var b := if x < 8 then 1 else 0;
    assert Step(s) == Execute(s, Compare(Lt, x, 8, 3));
    assert Lt.Eval(x, 8) <==> b == 1;
    assert LtS(x, 2) == s.(mem := s.mem.Set(3, b).Advance(4));
  }

  lemma LtStep2(x: int)
    ensures Step(LtS(x, 2)) == (LtS(x, 3), Produced(Some(if x < 8 then 1 else 0)))
  {
    var b := if x < 8 then 1 else 0;
    var m := LtS(x, 2).mem;
    assert m.ptr == 6 && m.Read(6) == 4 && m.Read(7) == 3 && m.Read(3) == b;
    assert ParamModeOf(4, 1) == Some(Position);
    assert Decode(m) == Op(Output(b));
    var e: seq<int> := [];
    assert e + [b] == [b];
  }

  lemma LtStep3(x: int)
    ensures Step(LtS(x, 3)) == (LtS(x, 4), Halted)
  {
    var m := LtS(x, 3).mem;
    assert m.ptr == 8 && m.Read(8) == 99;
  }

  /** The program reads one value and outputs 1 if it is less than 8, else 0, for every input. */
  lemma LessThanEight(x: int)
    ensures Run(Boot([3, 3, 1107, -1, 8, 3, 4, 3, 99], [x]), 4).1 == Done([if x < 8 then 1 else 0])
  {
    var b := if x < 8 then 1 else 0;
    LtStep0(x);
    LtStep1(x);
    LtStep2(x);
    LtStep3(x);
    IntcodeProps.DriveAfterStep(Step, LtS(x, 3), 1, LtS(x, 4), Halted);
    IntcodeProps.DriveAfterStep(Step, LtS(x, 2), 2, LtS(x, 3), Produced(Some(b)));
    IntcodeProps.DriveAfterStep(Step, LtS(x, 1), 3, LtS(x, 2), Produced(None));
    IntcodeProps.DriveAfterStep(Step, LtS(x, 0), 4, LtS(x, 1), Produced(None));
    var e: seq<int> := [];
    assert e + (e + ([b] + e)) == [b];
  }

  // ---------------------------------------------------------------------------
  // test_relative: a relative-mode program that outputs a copy of itself
  // ---------------------------------------------------------------------------

  function Quine(): seq<int>
  {
    [109, 1, 204, -1, 1001, 100, 1, 100, 1008, 100, 16, 101, 1006, 101, 0, 99]
  }

  /**
   * The machine in round `k` of the program's loop, at `ptr`, with its sixteen
   * code cells intact.  The base is `k` before the first instruction of the
   * round and `k + 1` after it; the counter, cell 100, is `k` until the round
   * increments it; at the jump, cell 101 says whether the counter reached 16.
   */
  ghost predicate QuineAt(s: Vm, ptr: nat, k: nat)
  {
    s.mem.ptr == ptr && k < 16 &&
    s.mem.base == (if ptr == 0 then k else k + 1) &&
    s.mem.Read(100) == (if ptr < 8 then k else k + 1) &&
    (ptr == 12 ==> s.mem.Read(101) == if k == 15 then 1 else 0) &&
    forall a: nat :: a < 16 ==> s.mem.Read(a) == Quine()[a]
  }

  /** What each instruction of the program does to a machine in its loop, for a step function `step`. */
  ghost predicate QuineSteps(step: Vm -> (Vm, StepResult))
  {
    (forall s: Vm, k: nat {:trigger step(s), QuineAt(s, 0, k)} :: QuineAt(s, 0, k) ==> step(s).1 == Produced(None) && QuineAt(step(s).0, 2, k)) &&
    (forall s: Vm, k: nat {:trigger step(s), QuineAt(s, 2, k)} :: QuineAt(s, 2, k) ==> step(s).1 == Produced(Some(Quine()[k])) && QuineAt(step(s).0, 4, k)) &&
    (forall s: Vm, k: nat {:trigger step(s), QuineAt(s, 4, k)} :: QuineAt(s, 4, k) ==> step(s).1 == Produced(None) && QuineAt(step(s).0, 8, k)) &&
    (forall s: Vm, k: nat {:trigger step(s), QuineAt(s, 8, k)} :: QuineAt(s, 8, k) ==> step(s).1 == Produced(None) && QuineAt(step(s).0, 12, k)) &&
    (forall s: Vm, k: nat {:trigger step(s), QuineAt(s, 12, k)} :: QuineAt(s, 12, k) && k < 15 ==> step(s).1 == Produced(None) && QuineAt(step(s).0, 0, k + 1)) &&
    (forall s: Vm, k: nat {:trigger step(s), QuineAt(s, 12, k)} :: QuineAt(s, 12, k) && k == 15 ==> step(s).1 == Produced(None) && QuineAt(step(s).0, 15, 15)) &&
    (forall s {:trigger step(s), QuineAt(s, 15, 15)} :: QuineAt(s, 15, 15) ==> step(s).1 == Halted)
  }

  /** `109,1` moves the base up by one. */
  lemma QuineAdjust(s: Vm, k: nat)
    requires QuineAt(s, 0, k)
    ensures Step(s).1 == Produced(None) && QuineAt(Step(s).0, 2, k)
  {
    var m := s.mem;
    assert m.Instr() == 109 && m.Read(1) == 1;
    IntcodeProps.CellDecodes(9, Immediate, Position, Position);
    assert IntcodeProps.InstrCell(9, Immediate, Position, Position) == 109;
    assert Decode(m) == Op(AdjustBase(1));
  }

  /** `204,-1` outputs the cell just below the base, which is code cell `k`. */
  lemma QuineOutput(s: Vm, k: nat)
    requires QuineAt(s, 2, k)
    ensures Step(s).1 == Produced(Some(Quine()[k])) && QuineAt(Step(s).0, 4, k)
  {
    var m := s.mem;
    assert m.Instr() == 204 && m.Read(3) == -1;
    IntcodeProps.CellDecodes(4, Relative, Position, Position);
    assert IntcodeProps.InstrCell(4, Relative, Position, Position) == 204;
    assert AsU64(k + 1 + -1) == k;
    assert Decode(m) == Op(Output(Quine()[k]));
  }

  /** `1001,100,1,100` adds one to the counter. */
  lemma QuineCount(s: Vm, k: nat)
    requires QuineAt(s, 4, k)
    ensures Step(s).1 == Produced(None) && QuineAt(Step(s).0, 8, k)
  {
    var m := s.mem;
    assert m.Instr() == 1001 && m.Read(5) == 100 && m.Read(6) == 1 && m.Read(7) == 100;
    IntcodeProps.CellDecodes(1, Position, Immediate, Position);
    assert IntcodeProps.InstrCell(1, Position, Immediate, Position) == 1001;
    assert AsU64(100) == 100;
    assert Decode(m) == Op(Arith(Add, k, 1, 100));
  }

  /** `1008,100,16,101` stores in cell 101 whether the counter reached 16. */
  lemma QuineTest(s: Vm, k: nat)
    requires QuineAt(s, 8, k)
    ensures Step(s).1 == Produced(None) && QuineAt(Step(s).0, 12, k)
  {
    var m := s.mem;
    assert m.Instr() == 1008 && m.Read(9) == 100 && m.Read(10) == 16 && m.Read(11) == 101;
    IntcodeProps.CellDecodes(8, Position, Immediate, Position);
    assert IntcodeProps.InstrCell(8, Position, Immediate, Position) == 1008;
    assert AsU64(100) == 100 && AsU64(101) == 101;
    assert Decode(m) == Op(Compare(Eq, k + 1, 16, 101));
  }

  /** `1006,101,0` jumps back to the start unless the counter reached 16. */
  lemma QuineLoop(s: Vm, k: nat)
    requires QuineAt(s, 12, k)
    ensures Step(s).1 == Produced(None)
    ensures k < 15 ==> QuineAt(Step(s).0, 0, k + 1)
    ensures k == 15 ==> QuineAt(Step(s).0, 15, 15)
  {
    var m := s.mem;
    assert m.Instr() == 1006 && m.Read(13) == 101 && m.Read(14) == 0;
    IntcodeProps.CellDecodes(6, Position, Immediate, Position);
    assert IntcodeProps.InstrCell(6, Position, Immediate, Position) == 1006;
    assert AsU64(101) == 101 && AsU64(0) == 0;
    assert Decode(m) == Op(Jump(false, if k == 15 then 1 else 0, 0));
  }

  /** The last cell halts. */
  lemma QuineHalt(s: Vm)
    requires QuineAt(s, 15, 15)
    ensures Step(s).1 == Halted
  {
    assert s.mem.Instr() == 99;
  }

  /** The machine's own step function does what the program's instructions say. */
  lemma QuineStepsOfStep()
    ensures QuineSteps(Step)
  {
    forall s: Vm, k: nat | QuineAt(s, 0, k) ensures Step(s).1 == Produced(None) && QuineAt(Step(s).0, 2, k) {
      QuineAdjust(s, k);
    }
    forall s: Vm, k: nat | QuineAt(s, 2, k) ensures Step(s).1 == Produced(Some(Quine()[k])) && QuineAt(Step(s).0, 4, k) {
      QuineOutput(s, k);
    }
    forall s: Vm, k: nat | QuineAt(s, 4, k) ensures Step(s).1 == Produced(None) && QuineAt(Step(s).0, 8, k) {
      QuineCount(s, k);
    }
    forall s: Vm, k: nat | QuineAt(s, 8, k) ensures Step(s).1 == Produced(None) && QuineAt(Step(s).0, 12, k) {
      QuineTest(s, k);
    }
    forall s: Vm, k: nat | QuineAt(s, 12, k) ensures Step(s).1 == Produced(None) && (k < 15 ==> QuineAt(Step(s).0, 0, k + 1)) && (k == 15 ==> QuineAt(Step(s).0, 15, 15)) {
      QuineLoop(s, k);
    }
    forall s | QuineAt(s, 15, 15) ensures Step(s).1 == Halted {
      QuineHalt(s);
    }
  }

  /** A step without output leaves the outcome of the rest of the run as it is. */
  lemma PrependNone(r: Outcome<seq<int>>)
    ensures Prepend([], r) == r
  {
    if r.Done? {
      assert [] + r.value == r.value;
    }
  }

  /** One round of the loop: five steps output code cell `k` and reach the next round, or the halt. */
  lemma QuineFive(step: Vm -> (Vm, StepResult), s: Vm, k: nat, fuel: nat) returns (t: Vm)
    requires QuineSteps(step) && QuineAt(s, 0, k) && fuel >= 5
    ensures Drive(step, s, fuel).1 == Prepend([Quine()[k]], Drive(step, t, fuel - 5).1)
    ensures k < 15 ==> QuineAt(t, 0, k + 1)
    ensures k == 15 ==> QuineAt(t, 15, 15)
  {
    var s1 := step(s).0;
    var s2 := step(s1).0;
    var s3 := step(s2).0;
    var s4 := step(s3).0;
    t := step(s4).0;
    var rest := Drive(step, t, fuel - 5).1;
    IntcodeProps.DriveAfterStep(step, s4, fuel - 4, t, Produced(None));
    PrependNone(rest);
    assert Drive(step, s4, fuel - 4).1 == rest;
    IntcodeProps.DriveAfterStep(step, s3, fuel - 3, s4, Produced(None));
    PrependNone(rest);
    assert Drive(step, s3, fuel - 3).1 == rest;
    IntcodeProps.DriveAfterStep(step, s2, fuel - 2, s3, Produced(None));
    assert Drive(step, s2, fuel - 2).1 == rest;
    IntcodeProps.DriveAfterStep(step, s1, fuel - 1, s2, Produced(Some(Quine()[k])));
    assert Drive(step, s1, fuel - 1).1 == Prepend([Quine()[k]], rest);
    IntcodeProps.DriveAfterStep(step, s, fuel, s1, Produced(None));
    PrependNone(Prepend([Quine()[k]], rest));
  }

  /** A suffix of a sequence is its first element followed by the rest. */
  lemma SliceFirst(q: seq<int>, k: nat)
    requires k < |q|
    ensures q[k..] == [q[k]] + q[k + 1..]
    ensures k + 1 == |q| ==> q[k + 1..] == []
  {
  }

  /** After the last round the program halts, with no further output. */
  lemma QuineLast(step: Vm -> (Vm, StepResult), t: Vm, fuel: nat)
    requires QuineSteps(step) && QuineAt(t, 15, 15) && fuel >= 1
    ensures Drive(step, t, fuel).1 == Done([])
  {
    IntcodeProps.DriveAfterStep(step, t, fuel, step(t).0, Halted);
  }

  /** From round `k` on, a step function that behaves as the program says outputs code cells `k` to 15 and halts. */
  lemma {:induction false} QuineRound(step: Vm -> (Vm, StepResult), s: Vm, k: nat, fuel: nat)
    requires QuineSteps(step) && QuineAt(s, 0, k) && fuel == 5 * (16 - k) + 1
    ensures Drive(step, s, fuel).1 == Done(Quine()[k..])
    decreases 16 - k
  {
    var t := QuineFive(step, s, k, fuel);
    SliceFirst(Quine(), k);
    if k == 15 {
      QuineLast(step, t, fuel - 5);
    } else {
      QuineRound(step, t, k + 1, fuel - 5);
    }
  }

  /** The relative-mode program outputs exactly its own code, in 81 steps. */
  lemma SelfCopy()
    ensures Run(Boot(Quine(), []), 81).1 == Done(Quine())
  {
    assert QuineAt(Boot(Quine(), []), 0, 0);
    QuineStepsOfStep();
    QuineRound(Step, Boot(Quine(), []), 0, 81);
  }
}
