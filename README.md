# Advent of Code 2019 in Dafny: the Intcode machine and the puzzle solvers

This project models the Rust solutions in the repository whonore/aoc2019 and proves
properties of the model.

The centre is the Intcode virtual machine of `src/intcode.rs`:

- a sparse memory of 64-bit cells on unsigned addresses, with an instruction pointer and a relative base;
- an opcode decoder with position, immediate and relative parameter modes;
- a session object (`IntcodeExec`) holding the memory, the queued input and the written output;
- the iterator step, and the `run`, `run_with` and `run_to_out` drivers.

Around it sit the puzzle solutions:

- day 1, fuel;
- day 2, the first Intcode program and its noun/verb search;
- day 3, crossing wires;
- day 4, password rules;
- day 6, the orbit map;
- day 8, the layered image;
- day 10, asteroid lines of sight;
- day 11, the painting robot;
- day 12, the n-body moons.

Modules follow the source files:

| module | file | models |
|---|---|---|
| `Intcode` | intcode.dfy | memory, decoding and the step and run functions, as values |
| `IntcodeExec` | intcode_exec.dfy | the session as a class whose methods are proved against those functions |
| `IntcodeProps` | intcode_props.dfy | what each instruction does, the run drivers, and the program text round trip |
| `IntcodeTests` | intcode_tests.dfy | the unit-test programs of `src/intcode.rs` |
| `LeBytes` | le_bytes.dfy | the 8-byte little-endian encoding of the input stream |
| `Text` | text.dfy | the string operations the parsers rely on: `split`, `trim`, `lines`, integer printing and parsing |
| `Arith` | arith.dfy | facts about multiplication and division |
| `Wrappers` | wrappers.dfy | `Option` and `Result` |
| `P01`…`P12` | p01.dfy … p12.dfy | one solution each |

Conventions:

- Integers are unbounded. Where the source relies on `i64`/`u64` behaviour, the model writes it out:
  - `as u64` of a cell is a remainder modulo 2^64;
  - `%` and `/` truncate toward zero, as in Rust;
  - code and input values are unbounded integers. The source's `&[i64]` parameters hold them in the `i64` range, but no contract here depends on that range, so the model accepts any integers.
- A machine run that might not halt takes a `fuel` bound. Running out is a distinct outcome.
- I/O is left out. The input stream is a sequence of integers with a read cursor, and the output stream a sequence of integers.
- `unreachable!()` in the decoder is a distinct outcome, `Unreachable` and `Crashed`. In pure conversions it is a precondition.

## Model

| member | source | states |
|---|---|---|
| Intcode.TruncDivMod | src/intcode.rs:20 | truncating division and remainder recombine to the dividend; the remainder has the dividend's sign and is smaller than the divisor in size |
| Intcode.AsU64 | src/intcode.rs:126-127 | `as u64` keeps an in-range value and adds 2^64 to a negative `i64` |
| Intcode.FromCode | src/intcode.rs:140-152 | a fresh memory reads the code cell at each address below its length and 0 elsewhere; pointer and base are 0 |
| Intcode.ParseProgram | src/intcode.rs:177-186 | a failed parse always reports "Invalid input" |
| Intcode.ParsePieces | src/intcode.rs:181-184 | a successful parse has one value per comma-separated piece |
| Intcode.Decode | src/intcode.rs:74-95 | `Opcode::new`: the two low digits choose the instruction, the parameters are read in their modes, other op-codes are an error and a bad mode the panic. Its properties are proved in `IntcodeProps.DecodeInvalidIff`, `CellDecodes` and `ImmediateTargetUnreachable` |
| Intcode.Execute | src/intcode.rs:272-314 | the `match op` of `next` and the pointer advance after it. What each instruction does is proved in the `IntcodeProps.Step…` lemmas |
| Intcode.Step | src/intcode.rs:264-315 | `next`: an error or a panic leaves the machine unchanged, otherwise the decoded instruction is executed (`IntcodeProps.StepFailureKeepsState`, `StepAdvancesPointer`) |
| Intcode.Drive | src/intcode.rs:234-237 | the loop of `run` over any step function: it stops at halt, at the first error or at a panic and collects the outputs in order (`IntcodeProps.DriveAfterStep`, `DriveFuelMonotone`) |
| Intcode.DriveToOut | src/intcode.rs:246-249 | the loop of `run_to_out` over any step function: it stops at the first output, error, panic or halt (`IntcodeProps.DriveToOutFirst`, `DriveToOutResumes`) |
| Intcode.Run | src/intcode.rs:234-237 | `run` is the driver over the machine's step (`IntcodeProps.RunAfterStep`, `RunFuelMonotone`, `RunOutputLog`) |
| Intcode.RunToOut | src/intcode.rs:246-249 | `run_to_out` is the output-seeking driver over the machine's step (`IntcodeProps.RunToOutAfterStep`, `RunToOutResumes`) |
| Intcode.Boot | src/intcode.rs:203-232 | `exec` then `read_vec`: fresh memory from the code, the input queued from its start, nothing written (`IntcodeExec.Exec.constructor`, `ReadVec`) |
| Intcode.Patched | src/intcode.rs:239-242 | the `(address, value)` writes of `run_with`, in order (`IntcodeProps.PatchedRead`) |
| IntcodeProps.Pow10Values | src/intcode.rs:20 | the mode divisors of parameters 1, 2 and 3 are 100, 1000 and 10000 |
| IntcodeProps.CellDecodes | src/intcode.rs:19-26 | a cell built from an opcode and three mode digits decodes back to that opcode and those modes |
| IntcodeProps.BadModeDigitUnreachable | src/intcode.rs:24 | a mode digit above 2 has no parameter mode |
| IntcodeProps.NegativeCellInvalid | src/intcode.rs:74-95 | a negative instruction cell has a non-positive truncated opcode, so it decodes as an invalid opcode |
| IntcodeProps.DecodeInvalidIff | src/intcode.rs:75-94 | decoding fails exactly when the opcode is none of 1–9 and 99, and reports that opcode |
| IntcodeProps.ImmediateTargetUnreachable | src/intcode.rs:131-137 | an input instruction whose target is in immediate mode reaches `unreachable!()` |
| IntcodeProps.SizeTable | src/intcode.rs:97-104 | instruction sizes: 4 for arithmetic and compare, 3 for jumps, 2 for input, output and base adjustment, 1 for halt |
| IntcodeProps.StepAdvancesPointer | src/intcode.rs:307-314 | a non-jump instruction that does not fault moves the pointer by its size; halt ends the iteration and output yields its value |
| IntcodeProps.StepArith | src/intcode.rs:274 | add and multiply write the sum or the product to the target, change no other cell, and move by 4 |
| IntcodeProps.StepCompare | src/intcode.rs:302 | less-than and equals write 1 or 0 to the target as the comparison holds, and move by 4 |
| IntcodeProps.StepJump | src/intcode.rs:296-301 | jump-if-true and jump-if-false set the pointer to the target exactly when the condition holds, and move by 3 otherwise |
| IntcodeProps.StepInput | src/intcode.rs:275-285 | input stores the next queued value and consumes it; with nothing queued it fails with "Invalid read" and changes nothing |
| IntcodeProps.StepOutput | src/intcode.rs:286-295 | output yields the value, appends it to the output stream and moves by 2 |
| IntcodeProps.StepAdjustBase | src/intcode.rs:303 | base adjustment adds the value to the relative base and moves by 2 |
| IntcodeProps.StepFailureKeepsState | src/intcode.rs:265-268 | a step that fails or panics leaves the machine as it was |
| IntcodeProps.StepMoreInput | src/intcode.rs:253-258 | queueing more input does not change a step that did not run out of input |
| IntcodeProps.StepOutputLog | src/intcode.rs:286-295 | a step appends to the output stream exactly the value it yields |
| IntcodeProps.RunOutputLog | src/intcode.rs:234-237 | a finished run has appended its result to the output stream |
| IntcodeProps.RunFaultSticky | src/intcode.rs:234-268 | a failed run stops on the instruction that keeps failing |
| IntcodeProps.DriveFuelMonotone | src/intcode.rs:234-237 | a run that finishes within some fuel gives the same result with more |
| IntcodeProps.DriveToOutFirst | src/intcode.rs:246-249 | `run_to_out` yields the first output of the full run, or none when the run outputs nothing |
| IntcodeProps.DriveToOutResumes | src/intcode.rs:246-249 | running on after `run_to_out` yields the rest of the full run's outputs |
| IntcodeProps.DriveAfterStep | src/intcode.rs:234-315 | one step of the full and the output-seeking drivers: halt, failure and panic end them; an output is collected or returned |
| IntcodeProps.RunAfterStep | src/intcode.rs:234-237 | `run` is the step's output followed by the run from the next state, unless the step halts, fails or panics |
| IntcodeProps.RunToOutAfterStep | src/intcode.rs:246-249 | `run_to_out` returns at the first output, and goes on past steps that output nothing |
| IntcodeProps.RunFuelMonotone | src/intcode.rs:234-237 | extra fuel does not change a run that finished |
| IntcodeProps.RunToOutResumes | src/intcode.rs:246-249 | `run_to_out` followed by `run` gives the outputs of a single `run` |
| IntcodeProps.PatchedRead | src/intcode.rs:239-242 | after the patches of `run_with`, each address reads its last patch, or its old value without one |
| IntcodeProps.Printed | src/intcode.rs:177-186 | a program prints as one piece per cell |
| IntcodeProps.IntToStringShape | src/intcode.rs:180-182 | a printed integer has no comma and no surrounding whitespace |
| IntcodeProps.ParsePrinted | src/intcode.rs:181-184 | the printed cells of an `i64` program parse back to the program |
| IntcodeProps.ParseProgramRoundTrip | src/intcode.rs:177-186 | a non-empty `i64` program, printed with commas, parses back to itself |
| IntcodeProps.PrintedAt | src/intcode.rs:182 | the i-th printed piece is the i-th cell printed |
| IntcodeExec.Exec.constructor | src/intcode.rs:203-211 | `exec` starts a session on the code: fresh memory, nothing queued, nothing written |
| IntcodeExec.Exec.At | src/intcode.rs:195-201 | indexing a session reads its memory |
| IntcodeExec.Exec.ReadVec | src/intcode.rs:230-232 | `read_vec` replaces the input with the given values, read from the start |
| IntcodeExec.Exec.WriteTo | src/intcode.rs:222-228 | `write_to` attaches a fresh, empty output |
| IntcodeExec.Exec.ReadNext | src/intcode.rs:253-258 | `read_next` appends to the input and keeps the read position |
| IntcodeExec.Exec.Next | src/intcode.rs:264-315 | the session's step changes its state exactly as the step function does and returns its result |
| IntcodeExec.Exec.Run | src/intcode.rs:234-237 | `run` loops the step and collects its outputs exactly as the run function does |
| IntcodeExec.Exec.RunWith | src/intcode.rs:239-244 | `run_with` patches the memory in order and then runs |
| IntcodeExec.Exec.RunToOut | src/intcode.rs:246-249 | `run_to_out` steps until the first output, a failure or the halt, exactly as its function does |
| IntcodeExec.RunLoopStep | src/intcode.rs:234-237 | one turn of the `run` loop leaves the remaining run and the collected outputs consistent |
| IntcodeExec.RunToOutLoopStep | src/intcode.rs:246-249 | one turn of the `run_to_out` loop leaves the remaining search consistent |
| LeBytes.UnsignedValueBound | src/intcode.rs:6-8 | n little-endian bytes hold a value below 256^n |
| LeBytes.UnsignedRoundTrip | src/intcode.rs:6-8 | a value below 256^n survives encoding to n bytes and decoding |
| LeBytes.UnsignedLeOfValue | src/intcode.rs:6-8 | n bytes survive decoding and re-encoding |
| LeBytes.Pow256Of8 | src/intcode.rs:6-8 | eight bytes span 2^64 values |
| LeBytes.FromLeBytes | src/intcode.rs:284 | `i64::from_le_bytes` gives an `i64` |
| LeBytes.LeRoundTrip | src/intcode.rs:276-284 | `from_le_bytes(to_le_bytes(x))` is x for every `i64` |
| LeBytes.LeRoundTripBytes | src/intcode.rs:276-284 | `to_le_bytes(from_le_bytes(b))` is b for every 8 bytes |
| LeBytes.IntsToBytes | src/intcode.rs:6-8 | `ints_to_bytes` gives 8 bytes per value |
| LeBytes.IntsToBytesRecord | src/intcode.rs:276-284 | the k-th 8-byte record of `ints_to_bytes` decodes to the k-th value |
| IntcodeTests.DriveTrace | src/intcode.rs:261-315 | a known step trace that ends in halt runs to its last state and collects the yielded outputs |
| IntcodeTests.EmptyIoAdd | src/intcode.rs:324-326 | `1,0,0,0,99` halts with memory `2,0,0,0,99` |
| IntcodeTests.EmptyIoMul | src/intcode.rs:327-329 | `2,3,0,3,99` halts with memory `2,3,0,6,99` |
| IntcodeTests.EmptyIoSquare | src/intcode.rs:330-332 | `2,4,4,5,99,0` halts with memory `2,4,4,5,99,9801` |
| IntcodeTests.EmptyIoRewrite | src/intcode.rs:333-338 | `1,1,1,4,99,5,6,0,99` overwrites its halt with a multiplication and halts with memory `30,1,1,4,2,5,6,0,99` |
| IntcodeTests.ParamModeImmediate | src/intcode.rs:343-345 | `1101,100,-1,4,0` writes 99 over its last cell and halts there |
| IntcodeTests.Echo | src/intcode.rs:349-354 | `3,0,4,0,99` reading 1 outputs 1 first |
| IntcodeTests.QuineRound | src/intcode.rs:417-423 | from round k of its loop, any step function that behaves as the relative-mode program's instructions say outputs code cells k to 15 and halts |
| IntcodeTests.QuineStepsOfStep | src/intcode.rs:261-315 | the machine's `next` carries out each instruction of the relative-mode program's loop: base adjust, relative output, count, compare, conditional jump back, and the final halt |
| IntcodeTests.SelfCopy | src/intcode.rs:417-423 | the relative-mode program outputs exactly its own sixteen cells and halts |
| IntcodeTests.BigOutput | src/intcode.rs:431-434 | `104,1125899906842624,99` outputs the large immediate |
| IntcodeTests.Product | src/intcode.rs:427-430 | `1102,a,b,7,4,7,99,0` outputs a*b for every a and b |
| IntcodeTests.BigProduct | src/intcode.rs:427-430 | the test's factors give 1219070632396864 |
| IntcodeTests.EqualsEight | src/intcode.rs:360-368 | `3,3,1108,-1,8,3,4,3,99` outputs 1 exactly when its input is 8, for every input |
| IntcodeTests.LessThanEight | src/intcode.rs:374-382 | `3,3,1107,-1,8,3,4,3,99` outputs 1 exactly when its input is below 8, for every input |
| Text.CharValue | src/intcode.rs:182 | a digit's value is below 10 |
| Text.DigitChar | src/intcode.rs:182 | the digit character of a value below 10 has that value |
| Text.NatToString | src/intcode.rs:182 | a printed natural is a non-empty run of digits with no leading zero |
| Text.NatToStringValue | src/intcode.rs:182 | the digits of a printed natural read back as that natural |
| Text.ParseI64 | src/intcode.rs:182 | `str::parse::<i64>` accepts only non-empty text and gives an `i64` |
| Text.ParseU64 | src/p01.rs:27 | `str::parse::<u64>` accepts only non-empty text and gives a `u64` |
| Text.ParseI64OfToString | src/intcode.rs:182 | every printed `i64` parses back to itself |
| Text.ParseU64OfToString | src/p01.rs:27 | every printed `u64` parses back to itself |
| Text.ParseI64Rejects | src/intcode.rs:182-184 | text that starts with neither a sign nor a digit does not parse |
| Text.Split | src/intcode.rs:181 | `split` gives at least one piece and no piece holds the separator |
| Text.JoinEnds | src/intcode.rs:181 | joining non-empty pieces starts with the first piece and ends with the last |
| Text.JoinSplit | src/intcode.rs:181 | joining the pieces of a split gives the text back |
| Text.SplitNoSep | src/intcode.rs:181 | text without the separator splits into itself |
| Text.SplitPiece | src/intcode.rs:181 | a leading separator-free piece splits off as the first piece |
| Text.SplitJoin | src/intcode.rs:181 | splitting separator-free pieces joined by the separator gives the pieces back |
| Text.TrimStart | src/intcode.rs:180 | `trim_start` removes exactly the leading whitespace |
| Text.TrimEnd | src/intcode.rs:180 | `trim_end` removes exactly the trailing whitespace |
| Text.TrimNoop | src/intcode.rs:180 | `trim` keeps text that neither starts nor ends with whitespace |
| Text.TrimSlice | src/intcode.rs:180 | `trim` gives a slice of its text that neither starts nor ends with whitespace |
| Text.Utf8Width | src/p08.rs:15 | a character takes one to four UTF-8 bytes, one exactly when it is ASCII |
| Text.Utf8Len | src/p08.rs:15 | `str::len` is at least the character count and at most four times it, and equals it exactly for ASCII text |
| Text.Lines | src/p01.rs:26 | `lines` gives pieces without a newline |
| Text.LinesOfPieces | src/p01.rs:26 | the lines of newline-free pieces hold no newline |
| Text.LinesOfCleanPieces | src/p01.rs:26 | pieces with no newline, no trailing carriage return and a non-empty last piece are their own lines |
| Text.LinesOfJoin | src/p01.rs:26 | such pieces joined by newlines split back into the pieces under `lines` |
| Arith.DivUnique | src/p08.rs:15 | the quotient is the one q that leaves a remainder in [0, n) |
| Arith.DivNat | src/p08.rs:15 | the quotient of two naturals is a natural |
| Arith.SmallMultiple | src/p08.rs:15 | the only multiple of n strictly between -n and n is 0 |
| Arith.MulAtLeast | src/p12.rs:23-25 | a positive multiple of n is at least n |
| P01.CalcFuel | src/p01.rs:1-3 | the fuel is a third of the mass less 2, or 0 below mass 9, and less than any positive mass |
| P01.FuelTotal | src/p01.rs:5-13 | the fuel for a mass and then for that fuel, until none is needed; its bounds are `P01.FuelTotalAtLeastFuel` and `FuelTotalBound`, and `P01.CalcFuelAll` computes it with the source's loop |
| P01.Part1 | src/p01.rs:15-17 | the sum of each module's fuel (`P01.Part1Snoc`, `Part2Bounds`) |
| P01.Part2 | src/p01.rs:19-21 | the sum of each module's total fuel (`P01.Part1Snoc`, `Part2Bounds`) |
| P01.CalcFuelAll | src/p01.rs:5-13 | the loop adds fuel for the fuel until none is needed: the total is `FuelTotal` |
| P01.FuelTotalAtLeastFuel | src/p01.rs:5-13 | the total fuel is at least the first amount, and equals it when that amount needs no more |
| P01.FuelTotalBound | src/p01.rs:5-13 | the total fuel is at most half the mass |
| P01.CalcFuelExamples | src/p01.rs:40-45 | masses 12, 14, 1969 and 100756 need 2, 2, 654 and 33583 |
| P01.FuelTotalExamples | src/p01.rs:48-52 | masses 14, 1969 and 100756 need 2, 966 and 50346 in total |
| P01.Part2Bounds | src/p01.rs:15-21 | part 2 is at least part 1 and at most half the total mass |
| P01.Part1Snoc | src/p01.rs:15-21 | both parts are sums: one more module adds its fuel |
| P02.Decode | src/p02.rs:10-17 | a decoded instruction lies inside the program, and so do the three parameters of an add or a multiply |
| P02.StepSpec | src/p02.rs:38-47 | a step keeps the program's length, and a step that continues has moved by 4 |
| P02.RunSpec | src/p02.rs:49-52 | a run keeps the program's length |
| P02.RunWithSpec | src/p02.rs:54-58 | `run_with` keeps the length and panics on a program too short to hold noun and verb |
| P02.Part1 | src/p02.rs:61-65 | cell 0 after `run_with(12, 2)`, or the run's error or panic (`P02.Part1Probe`, `Part1OfWitness`) |
| P02.Part1Probe | src/p02.rs:61-77 | `part1` is the attempt of `part2` with noun 12 and verb 2: it panics exactly when that attempt aborts, gives the target exactly when that attempt hits, and an error means a miss |
| P02.ProbeOf | src/p02.rs:70-71 | one attempt of `part2`: a fresh machine run with a noun and a verb, a hit when it ends with the target in cell 0 (`P02.WitnessProbe`) |
| P02.Search | src/p02.rs:67-77 | the nested loops over nouns and verbs, nouns outer; its meaning is proved in `P02.SearchFirst` and `SearchHits` |
| P02.Part2AsWritten | src/p02.rs:67-77 | the search over `0..99`, both bounds exclusive (`P02.Part2AsWrittenMisses`) |
| P02.Part2 | src/p02.rs:67-77 | the search over 0 to 99 inclusive (`P02.Part2Finds`) |
| P02.Intcode.constructor | src/p02.rs:34-36 | `Intcode::new` holds the code with the pointer at 0 |
| P02.Intcode.Step | src/p02.rs:38-47 | the in-place step changes the array and the pointer as `StepSpec` says |
| P02.Intcode.Run | src/p02.rs:49-52 | the in-place loop runs as `RunSpec` says |
| P02.Intcode.RunWith | src/p02.rs:54-58 | the in-place `run_with` patches cells 1 and 2 and runs, as `RunWithSpec` says |
| P02.SearchFirst | src/p02.rs:67-77 | a found answer is 100*noun+verb for the first hit in loop order, after misses only; a panic comes from the first probe that panics; "No solution found" exactly when every probe in range misses |
| P02.SearchHits | src/p02.rs:67-77 | a hit with only misses before it is the answer |
| P02.SearchPairs | src/p02.rs:67-77 | the nested loops compute the search |
| P02.StepArith | src/p02.rs:10-47 | add and multiply store the sum or product of the addressed operands and move by 4 |
| P02.StepHalt | src/p02.rs:14-47 | halt keeps the data, moves by 1 and stops |
| P02.StepFails | src/p02.rs:11-15 | a pointer past the end or an out-of-range target panics; an unknown opcode reports "Invalid opcode" with its number |
| P02.RunExamples | src/p02.rs:96-110 | the four test programs end in the expected memories |
| P02.WitnessRun | src/p02.rs:54-58 | the witness program adds the cells named by noun and verb into cell 0 and halts |
| P02.WitnessProbe | src/p02.rs:70-71 | a probe of the witness hits exactly when those two cells sum to 19690720 |
| P02.Part1OfWitness | src/p02.rs:61-65 | on the witness program `part1` adds cell 12 (0) and the verb (2) into cell 0 and answers 2 |
| P02.Part2AsWrittenMisses | src/p02.rs:68-69 | with the loops as written the witness has no solution |
| P02.Part2Finds | src/p02.rs:67-77 | with noun and verb ranging over 0..=99 the witness's answer is 399 |
| P03.Dist | src/p03.rs:6-8 | the Manhattan distance is the sum of the absolute coordinates, and 0 only at the origin |
| P03.Go | src/p03.rs:20-27 | `go` moves exactly `amt` along one axis and keeps the other |
| P03.DirOf | src/p03.rs:43-49 | only `U`, `D`, `L` and `R` name a direction |
| P03.ParseMove | src/p03.rs:42-52 | a move parses exactly when it starts with a direction letter followed by a `u64`; otherwise "Invalid dir" for a bad or missing letter, else "Invalid amount" |
| P03.ParseMoves | src/p03.rs:39-53 | a parsed path has one move per piece |
| P03.ParseWire | src/p03.rs:38-55 | `Wire::from_str`: trim, split at commas and parse every move, failing with the first move's error (`P03.ParseWireOfText`, `ParseMovesFirstError`, `ParseBadDir`) |
| P03.DirChar | src/p03.rs:43-49 | each direction has a letter that parses back to it |
| P03.MovesTextAt | src/p03.rs:42-52 | the i-th printed move is the i-th move printed |
| P03.ParseMovesOfText | src/p03.rs:42-53 | printed moves with `u64` amounts parse back to the moves |
| P03.ParseWireOfText | src/p03.rs:38-55 | a non-empty wire, printed with commas, parses back to itself |
| P03.ParseEmpty | src/p03.rs:43-48 | an empty line fails with "Invalid dir" |
| P03.ParseMovesFirstError | src/p03.rs:53 | a path fails with the error of its first bad move |
| P03.ParseMovesAllOk | src/p03.rs:53 | a path whose every move parses holds those moves in order |
| P03.SplitTwoMoves | src/p03.rs:41 | "R8,X5" splits into its two moves |
| P03.ParseOneMove | src/p03.rs:42-52 | "R8" parses as right 8 |
| P03.SecondMoveFails | src/p03.rs:48-53 | a bad letter in the second move fails the path |
| P03.ParseBadDir | src/p03.rs:38-55 | "R8,X5" fails with "Invalid dir" |
| P03.ParseBadAmount | src/p03.rs:50 | "U" fails with "Invalid amount" |
| P03.ParseSignedAmount | src/p03.rs:50 | "R-8" fails with "Invalid amount", since a `u64` takes no minus sign |
| P03.Advance | src/p03.rs:64-80 | a segment's next point is one step nearer its end, along x first and then y, keeping a shared coordinate; there is none at the end |
| P03.Walk | src/p03.rs:61-81 | every point the segment iterator yields, in order (`P03.WalkShape`, `WalkGo`, `InWalkGo`) |
| P03.WalkShape | src/p03.rs:61-81 | a segment yields as many points as its length, each a step nearer the end, ending on it and never visiting the start |
| P03.WalkGo | src/p03.rs:61-81 | the segment of a move walks the straight stretch of the move |
| P03.StretchShift | src/p03.rs:20-27 | a stretch is its first step followed by the rest |
| P03.InWalkGo | src/p03.rs:61-81 | a point lies on a move's segment exactly when it is on the move, start excluded |
| P03.InStretch | src/p03.rs:20-27 | a point lies on a stretch exactly when it is on the move |
| P03.InFlatten | src/p03.rs:96-101 | a point is in the flattened segments exactly when some segment passes through it |
| P03.Segment.constructor | src/p03.rs:59 | a segment holds its start and end |
| P03.Segment.Next | src/p03.rs:64-80 | the iterator's `next` makes the step of `Advance` in place |
| P03.Segment.Collect | src/p03.rs:99-100 | draining a segment yields its walk and leaves it at the end |
| P03.SegsChain | src/p03.rs:84-93 | `segs` gives one segment per move, from the origin, each starting where the last ended and ending where its move goes |
| P03.Segs | src/p03.rs:84-93 | `segs` from the origin (`P03.SegsChain`, `SegsExample`) |
| P03.SegsExample | src/p03.rs:156-169 | the test wire's segments |
| P03.PointsCount | src/p03.rs:96-101 | a wire visits as many points as the sum of its amounts |
| P03.Points | src/p03.rs:96-101 | the points of the wire's segments chained in order (`P03.InFlatten`, `PointsCount`) |
| P03.Intersect | src/p03.rs:95-109 | the crossings are the points both wires visit |
| P03.IndexOf | src/p03.rs:116 | `position` finds the first index of an element, or none when it is absent |
| P03.StepsTo | src/p03.rs:111-118 | the steps to a point are one more than its first index on the wire, and none for a point off the wire |
| P03.HasLeast | src/p03.rs:127 | a non-empty set of naturals has a least element |
| P03.LeastBelow | src/p03.rs:127 | any set of naturals holding some y has a least element |
| P03.Least | src/p03.rs:127-128 | `min().unwrap_or(0)`: the least element, or 0 for none |
| P03.Part1 | src/p03.rs:121-129 | the least Manhattan distance of a crossing, or 0 without one |
| P03.Part2 | src/p03.rs:131-138 | the least combined step count of a crossing, or 0 without one |
| P03.DelayAtLeastTwo | src/p03.rs:135 | every crossing costs at least two steps |
| P03.SegsExample1 | src/p03.rs:173-182 | the first test wire's segments |
| P03.SegsExample2 | src/p03.rs:176-178 | the second test wire's segments |
| P03.PointsExample1 | src/p03.rs:173-175 | the first test wire visits its four stretches |
| P03.PointsExample2 | src/p03.rs:176-178 | the second test wire visits its four stretches |
| P03.FlattenFour | src/p03.rs:96-101 | four segments flatten to their four walks |
| P03.OnExample1 | src/p03.rs:173-175 | the points of the first test wire, as a predicate |
| P03.OnPoints1 | src/p03.rs:173-175 | any wire with those stretches visits those points |
| P03.OnExample2 | src/p03.rs:176-178 | the points of the second test wire, as a predicate |
| P03.OnPoints2 | src/p03.rs:176-178 | any wire with those stretches visits those points |
| P03.CrossingsOfPaths | src/p03.rs:172-183 | two wires visiting those points cross at (3,3) and (6,5) |
| P03.IntersectExample | src/p03.rs:172-183 | the test wires cross at exactly (3,3) and (6,5) |
| P03.NearestOf | src/p03.rs:121-129 | those crossings give part 1 the distance 6 |
| P03.Part1Example | src/p03.rs:186-197 | part 1 of the first test pair is 6 |
| P03.StepsToAt | src/p03.rs:111-118 | a point first visited at index k takes k+1 steps |
| P03.StepsExample1 | src/p03.rs:269-270 | the first test wire reaches (6,5) in 15 steps and (3,3) in 20 |
| P03.StepsOn1 | src/p03.rs:269-270 | any wire with its stretches does the same |
| P03.StepsExample2 | src/p03.rs:271-273 | the second test wire reaches (6,5) in 15 steps and (3,3) in 20 |
| P03.StepsOn2 | src/p03.rs:271-273 | any wire with its stretches does the same |
| P03.FewestOf | src/p03.rs:131-138 | those crossings and step counts give part 2 the value 30 |
| P03.Part2Example | src/p03.rs:266-276 | part 2 of the first test pair is 30 |
| P04.Digits | src/p04.rs:1-6 | `digits` has one entry per character of the printed number, each that character's value |
| P04.DigitsByDivision | src/p04.rs:1-6 | the digits are those found by dividing by ten |
| P04.DigitsOf | src/p04.rs:1-6 | the digits of a number given by division |
| P04.DigitCount | src/p04.rs:1-6 | a number prints with k characters exactly when it lies in [10^(k-1), 10^k), or below 10 for k = 1 |
| P04.PowAtLeastTen | src/p04.rs:21 | a positive power of ten is at least 10 |
| P04.NeverDecreasesSorted | src/p04.rs:25 | digits that never decrease pairwise are sorted |
| P04.Valid | src/p04.rs:19-26 | `valid`: six digits, within `min` to `max` inclusive, some digit doubled, never decreasing (`P04.ValidMeans`) |
| P04.SixDigits | src/p04.rs:21 | six digits means 100000 to 999999 |
| P04.ValidMeans | src/p04.rs:19-26 | `valid` checks six digits, the range `min..=max`, a double and digits that never decrease |
| P04.CountInIsCard | src/p04.rs:28-32 | counting the accepted values of a range is the size of the set accepted |
| P04.CountInSplit | src/p04.rs:28-32 | a range one longer counts its last value in when it is accepted |
| P04.PassedAreValid | src/p04.rs:28-32 | the values the filter keeps are the valid ones below the bound |
| P04.Count | src/p04.rs:28-32 | `count` as written, over `min..max` (`P04.CountsMeaning`, `CountMissesMax`) |
| P04.CountInclusive | src/p04.rs:28-32 | the count over `min..=max`, the range `valid` accepts (`P04.CountsMeaning`) |
| P04.CountsMeaning | src/p04.rs:28-32 | the written count is the valid passwords below `max`; the count `valid` describes also takes `max`, one more when `max` is valid |
| P04.Part1 | src/p04.rs:35-37 | `part1` is the number of valid passwords from `min` up to but excluding `max`, as `count` scans them |
| P04.Part1Corrected | src/p04.rs:19-26 | the count over every password `valid` accepts, `max` included: the written `part1` plus one when `max` is valid |
| P04.ValidOnes | src/p04.rs:63 | 111111 is valid |
| P04.Ones | src/p04.rs:63 | 111111 has six digits, a double and no decrease |
| P04.OnesDigits | src/p04.rs:63 | the digits of 111111 |
| P04.InvalidDecreasing | src/p04.rs:64 | 223450 is not valid |
| P04.DecreasingDigits | src/p04.rs:64 | 223450 decreases at its end |
| P04.InvalidNoDouble | src/p04.rs:65 | 123789 is not valid |
| P04.NoDoubleDigits | src/p04.rs:65 | 123789 has no double |
| P04.NoDoubleIn | src/p04.rs:24 | strictly increasing digits have no double |
| P04.CountMissesMax | src/p04.rs:28-32 | for the range 111111 to 111111 the written count and `part1` are 0, although 111111 is valid; the corrected count is 1 |
| P06.ParseOrbit | src/p06.rs:21-28 | a line parses exactly when `)` splits it in two; otherwise "Invalid orbit" |
| P06.ParseOrbitMeans | src/p06.rs:21-28 | a line parses to (child, parent) exactly when it is `parent)child` with no other `)` |
| P06.ParseLines | src/p06.rs:17-31 | a failed parse reports "Invalid orbit" |
| P06.ParseLinesOk | src/p06.rs:17-31 | the map parses exactly when every line does |
| P06.ParseLinesKeys | src/p06.rs:17-31 | the parsed map's keys are the children of the lines |
| P06.ParseLinesLast | src/p06.rs:29 | collecting into the map keeps the last line for a repeated child |
| P06.ParseOrbits | src/p06.rs:17-31 | `Orbits::from_str`: every line of the text parsed as an orbit (`P06.ParseOrbitsOfText`, `ParseLinesOk`) |
| P06.OrbitLines | src/p06.rs:17-31 | one text line per orbit |
| P06.ParseOrbitLines | src/p06.rs:17-31 | printed orbits with clean names parse back to the map they describe |
| P06.ParseOrbitsOfText | src/p06.rs:17-31 | the same for the whole newline-joined text |
| P06.ParseRejects | src/p06.rs:23-27 | one line without exactly one `)` fails the whole map |
| P06.AncestorSplit | src/p06.rs:35-41 | walking a+b links up is walking a and then b |
| P06.AncestorPrefix | src/p06.rs:35-41 | every link before an existing one exists and is a key |
| P06.CycleForever | src/p06.rs:35-41 | on a cycle the links never end |
| P06.DepthAvoidingSome | src/p06.rs:35-41 | a depth found by the recursion is a chain of links to an object with no parent |
| P06.DepthAvoidingNone | src/p06.rs:35-41 | when the recursion finds no depth there is a cycle on the way |
| P06.Depth | src/p06.rs:35-41 | `depth`: the number of links to the root, none when the chain never ends (`P06.DepthIsLinks`, `DepthDiverges`, `DepthRecursion`) |
| P06.RootUnique | src/p06.rs:35-41 | the chain to the root has one length |
| P06.DepthIsLinks | src/p06.rs:35-41 | `depth` is d exactly when d links lead to an object that orbits nothing |
| P06.DepthDiverges | src/p06.rs:35-41 | `depth` never returns exactly when the links go on forever |
| P06.DepthRecursion | src/p06.rs:35-41 | `depth` is 0 for an object with no parent and one more than its parent's otherwise |
| P06.AncestorsFrom | src/p06.rs:61-73 | `parents` yields one entry per link to the root |
| P06.AncestorsAt | src/p06.rs:61-73 | the k-th entry is the (k+1)-th ancestor at distance k+1 |
| P06.Parents.constructor | src/p06.rs:43-49 | `parents` starts at the object at distance 0 |
| P06.Parents.Next | src/p06.rs:64-72 | the iterator moves to the parent and counts one more, or ends at an object with no parent |
| P06.Parents.Collect | src/p06.rs:52-53 | draining the iterator yields all ancestors with their distances |
| P06.InsertAll | src/p06.rs:52 | collecting into a map gives the old keys and the collected ones |
| P06.InsertAllAt | src/p06.rs:52 | an entry whose key occurs once keeps its value |
| P06.InsertAllKeep | src/p06.rs:52 | an untouched key keeps its value |
| P06.ToMapAt | src/p06.rs:52 | in the map of ancestors a once-occurring key has its distance |
| P06.Filter | src/p06.rs:54 | the filter keeps exactly the entries whose key is in the map |
| P06.MinByDist | src/p06.rs:55 | `min_by_key` gives an entry of least distance, and none only for no entries |
| P06.AncestorWithinDepth | src/p06.rs:35-73 | no ancestor lies beyond the depth |
| P06.AncestorOnce | src/p06.rs:61-73 | on an acyclic chain an ancestor occurs once |
| P06.CommonFiltered | src/p06.rs:52-54 | every common parent survives the filter |
| P06.ToMapOfAncestors | src/p06.rs:52 | a key in the map of ancestors is an ancestor at its recorded distance |
| P06.NearerCommon | src/p06.rs:51-58 | a common parent nearer to the second object is nearer in total |
| P06.Distance | src/p06.rs:51-58 | `distance`: through the common parent nearest to the second object (`P06.DistanceIsNearest`, `NearestCommonParent`) |
| P06.DistanceIsNearest | src/p06.rs:51-58 | `distance` is the least i+j over common ancestors, i links up from one and j from the other, and 0 without one |
| P06.NoCommonParent | src/p06.rs:55-57 | when the filter leaves nothing there is no common parent |
| P06.NearestCommonParent | src/p06.rs:55-57 | the least-distance filtered entry is the nearest common parent |
| P06.SumDepthsRemove | src/p06.rs:75-77 | the sum over a set is one depth plus the sum over the rest |
| P06.SumDepthsAtLeast | src/p06.rs:75-77 | on an acyclic map the keys' depths sum to at least their number |
| P06.Part1 | src/p06.rs:75-77 | the loop over the keys in any order sums every key's depth |
| P06.Part2 | src/p06.rs:79-81 | the distance from `YOU` to `SAN` less 2, a panic below 2 (`P06.Part2Transfers`) |
| P06.Part2Transfers | src/p06.rs:79-81 | part 2 panics exactly when `YOU` and `SAN` share no parent, and otherwise is the least (i-1)+(j-1) over common parents |
| P06.MapOfPrefix | src/p06.rs:29 | one more line adds its orbit to the map |
| P06.MapOfExample1 | src/p06.rs:97-109 | the first test map |
| P06.MapOfExample2 | src/p06.rs:117-131 | the second test map |
| P06.ParseExamples | src/p06.rs:97-131 | both test texts parse to their maps |
| P06.DepthUp | src/p06.rs:36-37 | one more than the parent's depth |
| P06.DepthsOfShape1 | src/p06.rs:110-111 | the depths in the first test map |
| P06.SumDepthsOfList | src/p06.rs:76 | the sum over a set is the sum over a list of its elements without repeats |
| P06.SumListOfShape1 | src/p06.rs:112 | those depths sum to 42 |
| P06.SumDepthsCons | src/p06.rs:76 | a list sum is its first depth plus the rest |
| P06.KeysOfShape1 | src/p06.rs:97-109 | the keys of the first test map are its eleven children |
| P06.DistinctOfShape1 | src/p06.rs:97-109 | those children are distinct |
| P06.AcyclicOfShape1 | src/p06.rs:97-109 | the first test map is acyclic |
| P06.Part1OfShape1 | src/p06.rs:112 | part 1 of a map shaped like the test is 42 |
| P06.WalksOfShape2 | src/p06.rs:117-131 | the ancestors of `YOU` and `SAN` in the second test map |
| P06.ParentsOfYou | src/p06.rs:52 | the map of `YOU`'s ancestors |
| P06.FilterOfSan | src/p06.rs:54 | `SAN`'s ancestors that `YOU` shares |
| P06.FilterKept | src/p06.rs:54 | entries whose keys are all in the map survive the filter |
| P06.MinOfSan | src/p06.rs:55 | the nearest shared one is `D` at 2 |
| P06.FilteredOfShape2 | src/p06.rs:52-54 | the filter of the second test map |
| P06.NearestOfShape2 | src/p06.rs:55 | its nearest shared parent |
| P06.ParentDOfShape2 | src/p06.rs:56 | `D` is 4 links above `YOU` |
| P06.Part2OfShape2 | src/p06.rs:132 | the distance is 6 and part 2 is 4 |
| P06.Test01 | src/p06.rs:95-113 | the first test: depths 3 and 7 and part 1 equal to 42 |
| P06.Test02 | src/p06.rs:115-133 | the second test: part 2 equal to 4 |
| P08.FlattenAppend | src/p08.rs:16-23 | flattening distributes over concatenation |
| P08.FlattenLength | src/p08.rs:16-23 | k pieces of length n flatten to n*k elements |
| P08.Chunks | src/p08.rs:21-22 | `chunks(n)` cuts the sequence into non-empty pieces of at most n, all but the last exactly n, that flatten back to it |
| P08.ChunksWhole | src/p08.rs:21-22 | a sequence of n*k elements cuts into k chunks of n |
| P08.LayersOf | src/p08.rs:21-22 | the pixels cut into layers of `width * height` and each layer into rows of `width` (`P08.LayersFlatten`, `LayersShape`) |
| P08.Area | src/p08.rs:15 | the area of a positive rectangle is at least each side |
| P08.AreaIsProduct | src/p08.rs:15 | the area is width times height |
| P08.PixelDigits | src/p08.rs:18-20 | each pixel is its character's digit value |
| P08.New | src/p08.rs:11-25 | `Image::new` succeeds exactly for positive sides and an all-digit trimmed text, keeps the sides, and claims as many layers as whole layers fit in the untrimmed text's UTF-8 byte length |
| P08.NewCorrected | src/p08.rs:11-25 | the corrected constructor gives as many layers as its depth |
| P08.FlattenTwice | src/p08.rs:16-23 | flattening per part and then overall is flattening twice |
| P08.LayersFlatten | src/p08.rs:16-23 | the layers' rows, read in order, are the pixels |
| P08.LayersShape | src/p08.rs:21-22 | every row holds at most `width` pixels; a whole number of layers gives `height` rows of `width` each |
| P08.DepthWhenWhole | src/p08.rs:15-23 | when the text holds k whole layers and trimming removes less than one layer, the depth is k and matches the layers |
| P08.OccurrencesMeans | src/p08.rs:30 | counting a digit in a row is its multiplicity |
| P08.SumRowsMeans | src/p08.rs:28-31 | summing the rows' counts is the digit's multiplicity in the layer |
| P08.CountDigit | src/p08.rs:27-32 | `count_digit`: the cells of one layer that hold the digit (`P08.CountDigitMeans`) |
| P08.CountDigitMeans | src/p08.rs:27-32 | `count_digit` is the digit's multiplicity in the layer, at most the layer's size |
| P08.FewestZeros | src/p08.rs:36-37 | `min_by_key` over the first n layers picks the earliest with the fewest zeros |
| P08.Part1 | src/p08.rs:35-40 | part 1 has a value exactly when the depth is positive and no more than the layers; otherwise it panics |
| P08.Part1Means | src/p08.rs:35-40 | the value is the ones times the twos of the earliest layer with the fewest zeros |
| P08.Part1Corrected | src/p08.rs:35-40 | with the corrected constructor every non-empty image has a part 1 |
| P08.TrimLineFeed | src/p08.rs:17 | trimming "1\n" gives "1" |
| P08.LayersOfOne | src/p08.rs:21-22 | one pixel on a 1x1 image is one layer |
| P08.NewOfLineFeed | src/p08.rs:11-25 | `Image::new(1, 1, "1\n")` has depth 2 but one layer |
| P08.OneDigit | src/p08.rs:19 | "1" is the pixel 1 |
| P08.DepthOfLineFeed | src/p08.rs:15 | the depth counts the newline |
| P08.DepthCountsNewline | src/p08.rs:11-40 | on "1\n" the written part 1 indexes a layer that does not exist; the corrected one gives 0 |
| P08.DepthCountsBytes | src/p08.rs:15 | on "12" followed by a no-break space at 2x1 the two-byte space gives depth 2 over one layer, so part 1 indexes past it |
| P10.Add | src/p10.rs:37-46 | coordinate-wise sum |
| P10.Sub | src/p10.rs:48-57 | coordinate-wise difference |
| P10.InRange | src/p10.rs:5-9 | `in_range`, half-open from either end (`P10.InRangeMeans`) |
| P10.Colinear | src/p10.rs:22-26 | `colinear`: the two steps have a zero cross product |
| P10.Between | src/p10.rs:28-30 | `between`: on the line and within the range on some axis (`P10.BetweenSame`, `BetweenEnds`, `BetweenOnSegment`) |
| P10.AddSubInverse | src/p10.rs:37-57 | subtraction undoes addition, and addition commutes |
| P10.InRangeMeans | src/p10.rs:5-9 | `in_range` holds exactly when the ends differ and y lies between them, ends included |
| P10.BetweenSame | src/p10.rs:28-30 | nothing lies between a point and itself |
| P10.BetweenEnds | src/p10.rs:28-30 | each end of a pair of distinct points counts as between them |
| P10.Scale | src/p10.rs:22-26 | a multiple of a direction |
| P10.MulMono | src/p10.rs:8 | multiplying by a non-negative factor keeps order |
| P10.InRangeScaled | src/p10.rs:5-9 | a point s steps along a line lies in range of the point t >= s steps along |
| P10.BetweenOnSegment | src/p10.rs:22-30 | a point on the segment from a towards a+t*d lies between them |
| P10.RowAsteroids | src/p10.rs:70-76 | a row's asteroids lie on that row, within its width |
| P10.RowsAsteroids | src/p10.rs:67-78 | the rows' asteroids lie within the rows |
| P10.FromStr | src/p10.rs:65-80 | parsing a map never fails |
| P10.RowAsteroidsMeans | src/p10.rs:70-76 | a point is an asteroid of a row exactly when the character at its column is `#` |
| P10.RowsAsteroidsMeans | src/p10.rs:67-78 | a point is an asteroid of the rows exactly when the character at its row and column is `#` |
| P10.FromStrMeans | src/p10.rs:65-80 | the parsed map holds exactly the `#` cells of its lines |
| P10.Hidden | src/p10.rs:92-96 | the points to remove are exactly the others that p2 lies between p1 and |
| P10.FindHidden | src/p10.rs:87-100 | the inner search ends empty only when no point hides another, and otherwise returns what some point hides |
| P10.NoneHiddenUnobstructed | src/p10.rs:102-103 | when no point hides another the visible set is unobstructed |
| P10.RemoveHiddenKeeps | src/p10.rs:105 | removing hidden points keeps the start and removes only points hidden by another |
| P10.VisibleFrom | src/p10.rs:84-109 | `visible_from` ends with a set in the map, holding p1, that nothing obstructs, from which only hidden points were removed |
| P10.Consider | src/p10.rs:155-158 | one candidate updates the best count seen |
| P10.Part1 | src/p10.rs:154-160 | the result is a station in the map that sees the most others, and there is none only for an empty map |
| P10.DiagonalFromCorner | src/p10.rs:84-109 | from the corner of three asteroids on a diagonal, whatever order the rounds take, the visible set is the corner and the middle one |
| P10.MiddleNotHidden | src/p10.rs:94 | the middle asteroid is not hidden |
| P10.FarNotBetween | src/p10.rs:28-30 | the far one does not lie between the corner and the middle |
| P10.FarBehindMiddle | src/p10.rs:28-30 | the middle one lies between the corner and the far one |
| P10.VisibleExactly | src/p10.rs:84-107 | when nothing lies in front of the asteroids of one set and each other asteroid has one of them in front of it, `visible_from` returns exactly that set, whatever order the rounds take |
| P10.ExampleParses | src/p10.rs:183-189 | the text of the tests' 5x5 map parses to its ten asteroids |
| P10.ExampleRows | src/p10.rs:70-78 | the five rows of that text hold the ten asteroids |
| P10.RowOfFive | src/p10.rs:70-76 | a row of five characters holds a point for each `#` |
| P10.RowsOfFive | src/p10.rs:67-78 | five lines hold the points of their rows |
| P10.ExampleJoin | src/p10.rs:183-187 | the test text is its five rows joined by line feeds |
| P10.Seen10 | src/p10.rs:190 | from (1, 0) `visible_from` returns 8 asteroids |
| P10.Seen40 | src/p10.rs:191 | from (4, 0) it returns 8 |
| P10.Seen02 | src/p10.rs:192 | from (0, 2) it returns 7 |
| P10.Seen12 | src/p10.rs:193 | from (1, 2) it returns 8 |
| P10.Seen22 | src/p10.rs:194 | from (2, 2) it returns 8 |
| P10.Seen32 | src/p10.rs:195 | from (3, 2) it returns 8 |
| P10.Seen42 | src/p10.rs:196 | from (4, 2) it returns 6 |
| P10.Seen43 | src/p10.rs:197 | from (4, 3) it returns 8 |
| P10.Seen34 | src/p10.rs:198 | from (3, 4) it returns 9 |
| P10.Seen44 | src/p10.rs:199 | from (4, 4) it returns 8 |
| P10.VisibleCount | src/p10.rs:182-199 | the size of what `visible_from` returns from each asteroid of the test map |
| P10.TestVisibleFrom | src/p10.rs:182-199 | `test_visible_from`: the ten sizes are 8, 8, 7, 8, 8, 8, 6, 8, 9, 8 |
| P10.ExampleCounts | src/p10.rs:154-160 | on the test map (3, 4) sees 9 asteroids, itself included, and every other station at most 8 |
| P10.ParseExample | src/p10.rs:231-237 | the first map of `test01` reads as the test map |
| P10.Part1Example | src/p10.rs:230-238 | `part1` of the first map of `test01` is ((3, 4), 8) |
| P11.TurnFrom | src/p11.rs:12-20 | code 0 is a left turn and code 1 a right turn |
| P11.Turned | src/p11.rs:31-38 | `Dir::turn`: a quarter turn left or right (`P11.TurnIsRotation`, `TurnBack`, `FourTurns`) |
| P11.TurnIsRotation | src/p11.rs:31-38 | a right turn is a quarter clockwise and a left turn three quarters |
| P11.QuarterInjective | src/p11.rs:23-28 | directions with the same quarter count are equal |
| P11.TurnBack | src/p11.rs:31-38 | a left turn then a right turn, or a right then a left, faces the way it started |
| P11.FourTurns | src/p11.rs:31-38 | four equal turns face the way they started |
| P11.TurnCrossesAxis | src/p11.rs:31-38 | a turn swaps vertical and horizontal, and the two turns from a direction face opposite ways |
| P11.ColorFrom | src/p11.rs:48-56 | the colour of code 0 or 1 has that discriminant |
| P11.ColorRoundTrip | src/p11.rs:42-56 | a colour survives conversion to its discriminant and back |
| P11.Neg | src/p11.rs:58-67 | negation gives the other colour, whose code is one minus the first |
| P11.NegInvolution | src/p11.rs:58-67 | negating twice gives the colour back |
| P11.Forward | src/p11.rs:99-104 | the move goes one cell along the direction: up is +y and right is +x |
| P11.PaintCount | src/p11.rs:96-105 | painting adds a cell to the count only when it was not painted before |
| P11.Robot.constructor | src/p11.rs:77-86 | the default robot stands at the origin, faces up and has painted nothing |
| P11.Robot.ColorHere | src/p11.rs:89-94 | the colour under the robot is the one painted there, or black |
| P11.Robot.Step | src/p11.rs:96-105 | `step` paints the current cell, then turns, then moves one cell the new way; the painted cells are the cells it has stood on when painting |
| P11.PaintTest | src/p11.rs:173-192 | the test's seven steps paint six distinct cells |
| P11.TestFirstSteps | src/p11.rs:177-181 | the first three steps of the test |
| P11.TestMiddleSteps | src/p11.rs:183-185 | the next two |
| P11.TestLastSteps | src/p11.rs:187-189 | the last two |
| P12.Cmp | src/p12.rs:7-13 | `cmp` is 1 exactly when x < y, -1 exactly when x > y, and 0 exactly when they are equal |
| P12.CmpAntisymmetric | src/p12.rs:7-13 | swapping the arguments negates the result |
| P12.Gcd | src/p12.rs:15-21 | Euclid's gcd is positive unless both arguments are 0 |
| P12.DividesZero | src/p12.rs:15-21 | everything divides 0 |
| P12.DividesSelf | src/p12.rs:15-21 | everything divides itself |
| P12.DividesFromRemainder | src/p12.rs:19 | a divisor of x and of y mod x divides y |
| P12.DividesRemainder | src/p12.rs:19 | a divisor of x and y divides y mod x |
| P12.GcdDivides | src/p12.rs:15-21 | the gcd divides both arguments |
| P12.GcdGreatest | src/p12.rs:15-21 | every common divisor divides the gcd |
| P12.ProductOverFactor | src/p12.rs:24 | the product of g*a and g*b, divided by g, regroups as a*(g*b) |
| P12.Lcm | src/p12.rs:23-25 | `lcm`: the product divided by the gcd (`P12.LcmIsCommonMultiple`) |
| P12.LcmIsCommonMultiple | src/p12.rs:23-25 | `lcm` is a multiple of both arguments, and times the gcd it is their product |
| P12.AddLaws | src/p12.rs:68-91 | point addition is commutative and associative, with the default point as identity and the negation as inverse |
| P12.Add | src/p12.rs:76-91 | `Point + Point` and `+=`, componentwise (`P12.AddLaws`) |
| P12.SumPoints | src/p12.rs:94-101 | `Sum for Point`, a left fold of `+` from the origin (`P12.SumPointsAppend`) |
| P12.PointCmp | src/p12.rs:103-110 | `Point::cmp`: one unit of pull, or none, on each axis (`P12.PointCmpAntisymmetric`) |
| P12.SumPointsAppend | src/p12.rs:94-101 | the sum of two runs of points is the sum of their sums |
| P12.PointCmpAntisymmetric | src/p12.rs:103-110 | `Point::cmp` of swapped points is the negation, and a point against itself gives the default point |
| P12.AbsSum | src/p12.rs:112-114 | `abs_sum` is 0 only for the origin and at least each absolute coordinate |
| P12.TrimAnglesStart | src/p12.rs:41 | trimming angle brackets from the start leaves a suffix that starts with none |
| P12.TrimAnglesEnd | src/p12.rs:41 | trimming angle brackets from the end leaves a prefix that ends with none |
| P12.TrimAngles | src/p12.rs:41 | `trim_matches(['<', '>'])` leaves text with no angle bracket at either end |
| P12.Field | src/p12.rs:43-48 | a parsed component is an `i64` |
| P12.FieldWithoutEquals | src/p12.rs:47 | a component with no `=` fails with "Bad field" and the component |
| P12.FieldBadInt | src/p12.rs:46 | a component whose value is not an `i64` fails with "Bad int" and the value |
| P12.Fields | src/p12.rs:43-49 | the components parse exactly when each does, to their values in order |
| P12.FieldsFirstError | src/p12.rs:49 | a failure is the error of the first component that fails |
| P12.ParsePoint | src/p12.rs:39-55 | a point parses exactly when its components do, and otherwise fails with their first error |
| P12.IntStringChars | src/p12.rs:46 | a printed integer is digits with at most a sign, and ends with a digit |
| P12.FieldOfShown | src/p12.rs:43-48 | a printed `name=value` component parses to the value |
| P12.TrimBracketed | src/p12.rs:41 | trimming removes exactly the brackets around text that neither starts nor ends with one |
| P12.SplitThree | src/p12.rs:42 | three comma-free components joined by commas split back into three |
| P12.FieldsThree | src/p12.rs:43-49 | three components give their values, or the first error |
| P12.ShownNoComma | src/p12.rs:42 | a printed component has no comma |
| P12.ComponentsOfThree | src/p12.rs:40-42 | a bracketed text of three comma-free components gives those three |
| P12.ShowPointJoins | src/p12.rs:39-42 | a printed point is its printed components, comma-joined and bracketed |
| P12.ShowPoint | src/p12.rs:39-55 | a point in the `<x=…, y=…, z=…>` format that `from_str` reads (`P12.ParseShowPoint`) |
| P12.ShownEnds | src/p12.rs:41-42 | a printed component has no bracket at either end and no comma |
| P12.ComponentsOfShown | src/p12.rs:40-42 | the components of a printed point are its three printed coordinates |
| P12.ParsePointOfComponents | src/p12.rs:39-55 | a bracketed text of three components parses to their values, or fails with the first error |
| P12.ParseShowPoint | src/p12.rs:39-55 | every point with `i64` coordinates, printed as `<x=…, y=…, z=…>`, parses back to itself |
| P12.NewBody | src/p12.rs:124-129 | a new body is at its position, at rest, with no energy |
| P12.Energy | src/p12.rs:147-149 | a body's energy is 0 exactly when it is at the origin or at rest |
| P12.ProductZero | src/p12.rs:148 | a product is 0 exactly when a factor is |
| P12.Moved | src/p12.rs:135-137 | `Body::step` adds the velocity to the position and keeps the velocity |
| P12.Pulls | src/p12.rs:155 | the pulls of the first n moons on moon i, in order |
| P12.RowIsSum | src/p12.rs:155 | the summed pull is the `Sum` of the pulls |
| P12.Pulled | src/p12.rs:157-159 | after gravity a moon keeps its position and its velocity gains the pull of every moon |
| P12.Gravity | src/p12.rs:153-159 | gravity changes each moon as `Pulled` says |
| P12.MoveAll | src/p12.rs:160-162 | every moon moves by its velocity |
| P12.StepAll | src/p12.rs:152-163 | a step applies every pull from the old positions, then moves every moon |
| P12.Step | src/p12.rs:152-163 | the in-place `step` leaves the slice as `StepAll` of the old one |
| P12.ColIsNegRow | src/p12.rs:153-156 | the pull of one moon on the others is the negation of theirs on it |
| P12.TotExtend | src/p12.rs:155 | adding a moon adds its column of pulls |
| P12.PullsCancel | src/p12.rs:153-156 | all pulls among the moons sum to zero |
| P12.GravityVelSum | src/p12.rs:157-159 | gravity adds the total pull to the summed velocity |
| P12.MovedVelSum | src/p12.rs:160-162 | moving keeps the velocities |
| P12.StepKeepsMomentum | src/p12.rs:152-163 | a step keeps the sum of the velocities |
| P12.Simulate | src/p12.rs:182-184 | simulating keeps the number of moons |
| P12.SimulateKeepsMomentum | src/p12.rs:182-184 | any number of steps keeps the sum of the velocities |
| P12.TotalEnergy | src/p12.rs:185 | the sum of the moons' energies (`P12.Energy`, `P12.Part1`) |
| P12.Part1 | src/p12.rs:181-186 | `part1` steps the moons in place `steps` times and returns the total energy of the result |

## Left out

- Reading the puzzle inputs (`include_str!`), every day's `run()` entry point and the command-line dispatch of `src/main.rs`: these are I/O.
- The `std::io` plumbing of `IntcodeExec`: the `Read`/`Write`/`Seek` streams of bytes, `io::Empty`, `io::Sink` and `Cursor`. The input is a sequence of integers with a read cursor and the output a sequence of integers. The 8-byte encoding of input values is modelled separately in `LeBytes`. Writing to a sequence cannot fail, so the "Invalid write" error of the output instruction has no `Fault` case.
- The builders `read_from` and `write_to`: they only change the types of the streams. Here they are the replacement of the input or the output.
- Overflow of `i64` and `u64` arithmetic, which panics in a debug build: integers are unbounded, apart from the `as u64` address conversion and the `i64` range that parsing checks.
- Runs of the Intcode machine take a fuel bound, because a program need not halt. Running out of fuel is its own outcome, and the lemmas show that more fuel never changes a run that halted.
- The iteration order of `HashMap` and `HashSet`: where it could matter (p06 `part1`, p10 `visible_from`) the method picks an arbitrary element, and its contract holds whatever it picks.
- `src/p05.rs`, `src/p07.rs` and `src/p09.rs` are not part of this model. They only call the machine, and p05 and p07 call `Intcode` functions that `src/intcode.rs` does not define.
- `part2` of `src/p04.rs` and of `src/p08.rs`: each returns the constant 0.
- `Robot::run`, `part1` and `part2` of `src/p11.rs`: they drive the robot from an Intcode program and render the painted grid as text.
- `Point::angle`, the `Vaporize` iterator and `part2` of `src/p10.rs`: they order by a floating-point angle, and `angle` itself returns 0.0.
- `step_until_repeat` and `part2` of `src/p12.rs`: an unbounded search for a repeated state, whose termination is not provable from the code.
- The unit tests `test_if` and `test_large` of `src/intcode.rs`, and the position-mode programs of `test_eq` and `test_lt`, are not proved as scenarios. The jump and comparison rules they exercise are proved for every instruction in `IntcodeProps`.
- The unit tests of `src/p03.rs` on the longer wire pairs: distances 159 and 135 (src/p03.rs:198-262) and step counts 610 and 410 (src/p03.rs:277-341). Those wires visit hundreds of points each, and walking them symbolically is too costly for the verifier. The short pair's answers 6 and 30 are proved (`P03.Part1Example`, `P03.Part2Example`).
- The four larger maps of `test01` in `src/p10.rs` (best counts 33, 35, 41 and 210) and `test_vaporize`: testing every triple of asteroids on those maps is too costly for the verifier, and vaporizing is left out above. The 5x5 map of `test_visible_from` and of the first `test01` case is proved (`P10.TestVisibleFrom`, `P10.Part1Example`).
- The unit test of `src/p08.rs` calls `part1` with no arguments and does not compile as written, so it has no counterpart.
- The unit tests of `src/p12.rs`: the energies 179 and 1940 after 10 and 100 steps (`test01`) and the `part2` test (`test02`). Evaluating the steps symbolically is too costly for the verifier, and `part2` is left out above.
- P12.ParsePoint: requires at least three components after a successful component parse. The source indexes `pts[0..2]` and would panic on fewer; that panic is not modelled.
- P12.Lcm: only the common-multiple property is proved, not that it is the least one, and the `u64` overflow of `x * y` is not modelled.
- P12.AbsSum: `abs` of `i64::MIN` and the cast to `u64` are not modelled as overflowing.

## Findings

| source | as written | input that shows it | evidently intended | confidence | as-written member | corrected member |
|---|---|---|---|---|---|---|
| src/p02.rs:68-69 | nouns and verbs range over `0..99`, so 99 is never tried | a 100-cell program `[1,0,0,0,99, 0…0, 19690720]`, whose only answers use verb 99 | both range over 0 to 99 inclusive, as the puzzle asks; the answer is then 399 | not executed | P02.Part2AsWrittenMisses | P02.Part2Finds |
| src/p04.rs:29 | `count` scans `min..max`, so `max` is never counted although `valid` accepts it | `min = max = 111111`: the count is 0, but 111111 is valid | count over `min..=max` | not executed | P04.CountMissesMax | P04.Part1Corrected |
| src/p08.rs:15 | `depth` divides the untrimmed input length in bytes, so trailing whitespace (a line feed, or a multi-byte space) can count as an extra layer, and `part1` then indexes past the last layer | a 1x1 image from `"1\n"`: depth 2, one layer | the depth is the number of layers cut from the trimmed digits | not executed | P08.DepthCountsNewline | P08.Part1Corrected |
