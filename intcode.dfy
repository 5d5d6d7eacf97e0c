/**
 * The Intcode virtual machine (src/intcode.rs), pure layer: the sparse memory
 * with its instruction pointer and relative base, the decoder that turns the
 * cell at the pointer into a fully resolved instruction, and one step of
 * execution over a machine state whose input channel is a sequence of values
 * with a read cursor and whose output channel is the sequence of values
 * written so far.  The class in intcode_exec.dfy runs these steps in place.
 */
module Intcode {
  import opened Wrappers
  import opened Text
  import LeBytes

  /** Rust's `/` for a positive divisor: the quotient rounded toward zero. */
  function TruncDiv(a: int, b: int): int
    requires b > 0
  {
    if a >= 0 then a / b else -((-a) / b)
  }

  /** Rust's `%` for a positive divisor: the remainder takes the sign of `a`. */
  function TruncMod(a: int, b: int): int
    requires b > 0
  {
    if a >= 0 then a % b else -((-a) % b)
  }

  /** The two truncating operators divide `a` exactly as Rust's do. */
  lemma TruncDivMod(a: int, b: int)
    requires b > 0
    ensures TruncDiv(a, b) * b + TruncMod(a, b) == a
    ensures a >= 0 ==> 0 <= TruncMod(a, b) < b
    ensures a < 0 ==> -b < TruncMod(a, b) <= 0
  {
    if a < 0 {
      var q, r := (-a) / b, (-a) % b;
      assert q * b + r == -a;
      assert TruncDiv(a, b) * b == -(q * b);
    }
  }

  /** `v as u64`: the two's-complement reinterpretation of a signed address. */
  function AsU64(v: int): (a: nat)
    ensures a < LeBytes.WORD
    ensures 0 <= v < LeBytes.WORD ==> a == v
    ensures v < 0 && -LeBytes.WORD <= v ==> a == v + LeBytes.WORD
  {
    v % LeBytes.WORD
  }

  datatype ParamMode = Position | Immediate | Relative

  /**
   * `ParamMode::new(op, param)`: the decimal digit of the instruction cell at
   * 10^(param+1).  `None` stands for the `unreachable!()` the source hits on a
   * digit other than 0, 1 and 2.
   */
  function ParamModeOf(op: int, param: nat): Option<ParamMode>
  {
    var digit := TruncMod(TruncDiv(op, Pow10(param + 1)), 10);
    if digit == 0 then Some(Position)
    else if digit == 1 then Some(Immediate)
    else if digit == 2 then Some(Relative)
    else None
  }

  datatype BinOp = Add | Mul
  {
    function Eval(v1: int, v2: int): int
    {
      match this
      case Add => v1 + v2
      case Mul => v1 * v2
    }
  }

  datatype CmpOp = Lt | Eq
  {
    predicate Eval(v1: int, v2: int)
    {
      match this
      case Lt => v1 < v2
      case Eq => v1 == v2
    }
  }

  /** A decoded instruction: input operands already read, write targets as addresses. */
  datatype Opcode =
    | Arith(bin: BinOp, v1: int, v2: int, out: nat)
    | Input(out: nat)
    | Output(val: int)
    | Jump(ifTrue: bool, cond: int, target: nat)
    | Compare(cmp: CmpOp, v1: int, v2: int, out: nat)
    | AdjustBase(delta: int)
    | Halt
  {
    /** The number of cells the instruction occupies. */
    function Size(): nat
    {
      match this
      case Arith(_, _, _, _) => 4
      case Compare(_, _, _, _) => 4
      case Jump(_, _, _) => 3
      case Input(_) => 2
      case Output(_) => 2
      case AdjustBase(_) => 2
      case Halt => 1
    }
  }

  /** The sparse memory: unwritten cells read as 0; `ptr` and `base` are its registers. */
  datatype Memory = Memory(cells: map<nat, int>, ptr: nat, base: int)
  {
    /** `Index<u64>`: the value at `addr`, 0 if the cell was never written. */
    function Read(addr: nat): int
    {
      if addr in cells then cells[addr] else 0
    }

    /** `Memory::set`: store `val` at `addr`. */
    function Set(addr: nat, val: int): Memory
    {
      this.(cells := cells[addr := val])
    }

    /** `Memory::instr`: the cell at the instruction pointer. */
    function Instr(): int
    {
      Read(ptr)
    }

    /** `Memory::in_param`: the value of operand `param`; `None` is `unreachable!()`. */
    function InParam(param: nat): Option<int>
    {
      var cell := Read(ptr + param);
      match ParamModeOf(Instr(), param)
      case Some(Immediate) => Some(cell)
      case Some(Position) => Some(Read(AsU64(cell)))
      case Some(Relative) => Some(Read(AsU64(base + cell)))
      case None => None
    }

    /** `Memory::out_param`: the target address of operand `param`; `None` is `unreachable!()`. */
    function OutParam(param: nat): Option<nat>
    {
      var cell := Read(ptr + param);
      match ParamModeOf(Instr(), param)
      case Some(Position) => Some(AsU64(cell))
      case Some(Relative) => Some(AsU64(base + cell))
      case _ => None
    }

    function Advance(n: nat): Memory
    {
      this.(ptr := ptr + n)
    }
  }

  /** `Memory::from(code)`: cell i holds code[i], every other cell 0, both registers 0. */
  function FromCode(code: seq<int>): (m: Memory)
    ensures forall a: nat :: m.Read(a) == if a < |code| then code[a] else 0
    ensures m.ptr == 0 && m.base == 0
  {
    Memory(map a: nat | a < |code| :: code[a], 0, 0)
  }

  /** The result of `Opcode::new`: an instruction, an invalid opcode, or `unreachable!()`. */
  datatype Decoded = Op(op: Opcode) | BadOpcode(code: int) | Unreachable

  /** True for the op-codes of the instruction table. */
  predicate KnownOpcode(code: int)
  {
    1 <= code <= 9 || code == 99
  }

  /** `Opcode::new`: decode the instruction at the pointer. */
  function Decode(m: Memory): Decoded
  {
    var code := TruncMod(m.Instr(), 100);
    if code == 1 || code == 2 || code == 7 || code == 8 then
      match (m.InParam(1), m.InParam(2), m.OutParam(3))
      case (Some(v1), Some(v2), Some(out)) =>
        if code == 1 then Op(Arith(Add, v1, v2, out))
        else if code == 2 then Op(Arith(Mul, v1, v2, out))
        else if code == 7 then Op(Compare(Lt, v1, v2, out))
        else Op(Compare(Eq, v1, v2, out))
      case _ => Unreachable
    else if code == 3 then
      match m.OutParam(1)
      case Some(out) => Op(Input(out))
      case None => Unreachable
    else if code == 4 then
      match m.InParam(1)
      case Some(v) => Op(Output(v))
      case None => Unreachable
    else if code == 5 || code == 6 then
      match (m.InParam(1), m.InParam(2))
      case (Some(v), Some(t)) => Op(Jump(code == 5, v, AsU64(t)))
      case _ => Unreachable
    else if code == 9 then
      match m.InParam(1)
      case Some(v) => Op(AdjustBase(v))
      case None => Unreachable
    else if code == 99 then Op(Halt)
    else BadOpcode(code)
  }

  /** The errors `next` reports. */
  datatype Fault = InvalidOpcode(code: int) | InvalidRead

  /** The message the source attaches to each error. */
  function Message(f: Fault): string
  {
    match f
    case InvalidOpcode(code) => "Invalid opcode " + IntToString(code)
    case InvalidRead => "Invalid read"
  }

  /**
   * An execution session: the memory, the values the input channel holds with
   * the position of the next one to read, and the values written to the output.
   */
  datatype Vm = Vm(mem: Memory, input: seq<int>, cursor: nat, output: seq<int>)

  /**
   * What one call of `next` gives: `None` after `Halt`, `Some(Ok(out))` after
   * any other instruction, `Some(Err(fault))`, or the panic of `unreachable!()`.
   */
  datatype StepResult = Halted | Produced(out: Option<int>) | Faulted(fault: Fault) | Panicked

  /** `Intcode::exec` followed by `read_vec(input)`: a fresh session on `code`. */
  function Boot(code: seq<int>, input: seq<int>): Vm
  {
    Vm(FromCode(code), input, 0, [])
  }

  /** Apply one decoded instruction: the `match op` of `next` and the pointer advance after it. */
  function Execute(s: Vm, op: Opcode): (Vm, StepResult)
  {
    match op
    case Arith(bin, v1, v2, out) =>
      (s.(mem := s.mem.Set(out, bin.Eval(v1, v2)).Advance(op.Size())), Produced(None))
    case Input(out) =>
      if s.cursor < |s.input| then
        (s.(mem := s.mem.Set(out, s.input[s.cursor]).Advance(op.Size()), cursor := s.cursor + 1), Produced(None))
      else
        (s, Faulted(InvalidRead))
    case Output(v) =>
      (s.(mem := s.mem.Advance(op.Size()), output := s.output + [v]), Produced(Some(v)))
    case Jump(ifTrue, v, target) =>
      if ifTrue != (v == 0) then (s.(mem := s.mem.(ptr := target)), Produced(None))
      else (s.(mem := s.mem.Advance(op.Size())), Produced(None))
    case Compare(cmp, v1, v2, out) =>
      (s.(mem := s.mem.Set(out, if cmp.Eval(v1, v2) then 1 else 0).Advance(op.Size())), Produced(None))
    case AdjustBase(v) =>
      (s.(mem := s.mem.(base := s.mem.base + v).Advance(op.Size())), Produced(None))
    case Halt =>
      (s.(mem := s.mem.Advance(op.Size())), Halted)
  }

  /** `Iterator::next`: decode at the pointer and execute. */
  function Step(s: Vm): (Vm, StepResult)
  {
    match Decode(s.mem)
    case BadOpcode(code) => (s, Faulted(InvalidOpcode(code)))
    case Unreachable => (s, Panicked)
    case Op(op) => Execute(s, op)
  }

  /**
   * The outcome of a driver: its value, the first error, the panic, or
   * `OutOfFuel` when the step budget ran out first.
   */
  datatype Outcome<T> = Done(value: T) | Failed(fault: Fault) | Crashed | OutOfFuel

  /** The outputs one step contributes to the result of `run` (its `filter_map`). */
  function Outs(o: Option<int>): seq<int>
  {
    if o.Some? then [o.value] else []
  }

  /** The result of a run after `outs` were already collected. */
  function Prepend(outs: seq<int>, r: Outcome<seq<int>>): Outcome<seq<int>>
  {
    match r
    case Done(rest) => Done(outs + rest)
    case _ => r
  }

  /**
   * The loop of `run` for a given step function: step until `Halt` or an
   * error, within `fuel` steps, collecting the outputs in order.
   */
  function Drive(step: Vm -> (Vm, StepResult), s: Vm, fuel: nat): (Vm, Outcome<seq<int>>)
    decreases fuel
  {
    if fuel == 0 then (s, OutOfFuel)
    else
      var (t, r) := step(s);
      match r
      case Halted => (t, Done([]))
      case Faulted(f) => (t, Failed(f))
      case Panicked => (t, Crashed)
      case Produced(o) =>
        var (u, rest) := Drive(step, t, fuel - 1);
        (u, Prepend(Outs(o), rest))
  }

  /** The loop of `run_to_out` for a given step function: step until an output, an error or `Halt`. */
  function DriveToOut(step: Vm -> (Vm, StepResult), s: Vm, fuel: nat): (Vm, Outcome<Option<int>>)
    decreases fuel
  {
    if fuel == 0 then (s, OutOfFuel)
    else
      var (t, r) := step(s);
      match r
      case Halted => (t, Done(None))
      case Faulted(f) => (t, Failed(f))
      case Panicked => (t, Crashed)
      case Produced(o) =>
        if o.Some? then (t, Done(o)) else DriveToOut(step, t, fuel - 1)
  }

  /** `run`: step until `Halt` or an error, within `fuel` steps; the outputs in order. */
  function Run(s: Vm, fuel: nat): (Vm, Outcome<seq<int>>)
  {
    Drive(Step, s, fuel)
  }

  /** `run_to_out`: step until an output, an error or `Halt` (then `Ok(None)`), within `fuel` steps. */
  function RunToOut(s: Vm, fuel: nat): (Vm, Outcome<Option<int>>)
  {
    DriveToOut(Step, s, fuel)
  }

  /** The memory after the `(address, value)` patches of `run_with`, applied in order. */
  function Patched(m: Memory, patches: seq<(nat, int)>): Memory
    decreases |patches|
  {
    if |patches| == 0 then m
    else
      var (addr, val) := patches[|patches| - 1];
      Patched(m, patches[..|patches| - 1]).Set(addr, val)
  }

  /** `Intcode::from_str`: trim, split at commas, parse every piece as an `i64`. */
  function ParseProgram(text: string): (r: Result<seq<int>, string>)
    ensures r.Err? ==> r.error == "Invalid input"
  {
    match ParsePieces(Split(Trim(text), ','))
    case Some(code) => Ok(code)
    case None => Err("Invalid input")
  }

  function ParsePieces(pieces: seq<string>): (r: Option<seq<int>>)
    ensures r.Some? ==> |r.value| == |pieces|
  {
    if |pieces| == 0 then Some([])
    else match (ParseI64(pieces[0]), ParsePieces(pieces[1..]))
      case (Some(v), Some(rest)) => Some([v] + rest)
      case _ => None
  }
}
