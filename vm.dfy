/**
 * The Intcode machine of vm.py: arithmetic decoding of an instruction cell into an
 * opcode and three parameter modes, and a stored-program machine that runs
 * fetch-decode-execute over opcodes 1-8 and 99.
 *
 * The pure part (Decode, Fetch, Perform, Run) is the specification; the class
 * Machine holds the same state in fields and its Execute method is proved to
 * end in the state and outcome that Run computes.
 */
module Vm {
  import opened Wrappers
  import Numbers

  datatype Opcode = Add | Multiply | Save | Print | JumpIfTrue | JumpIfFalse | LessThan | Equals | Halt

  /** The enum lookup `Opcode(n)`: None stands for the ValueError raised for a non-member. */
  function OpcodeOf(n: int): (r: Option<Opcode>)
    ensures r.Some? <==> (1 <= n <= 8 || n == 99)
    ensures r.Some? ==> Code(r.value) == n
  {
    match n
    case 1 => Some(Add)
    case 2 => Some(Multiply)
    case 3 => Some(Save)
    case 4 => Some(Print)
    case 5 => Some(JumpIfTrue)
    case 6 => Some(JumpIfFalse)
    case 7 => Some(LessThan)
    case 8 => Some(Equals)
    case 99 => Some(Halt)
    case _ => None
  }

  /** The enum value of an opcode. */
  function Code(op: Opcode): (n: int)
  {
    match op
    case Add => 1
    case Multiply => 2
    case Save => 3
    case Print => 4
    case JumpIfTrue => 5
    case JumpIfFalse => 6
    case LessThan => 7
    case Equals => 8
    case Halt => 99
  }

  lemma {:induction false} OpcodeRoundTrip(op: Opcode)
    ensures OpcodeOf(Code(op)) == Some(op)
  {
  }

  /** A decoded instruction cell. */
  datatype Instruction = Instruction(instruction: int, opcode: Opcode, modes: seq<int>)

  /**
   * `Instruction(cell)`: the opcode is `cell % 100` and the i-th mode the decimal
   * digit `cell // 10**(i+2) % 10`; None when the opcode is not a member.
   */
  function Decode(cell: int): (r: Option<Instruction>)
    ensures r.Some? <==> OpcodeOf(cell % 100).Some?
    ensures r.Some? ==> r.value.instruction == cell && r.value.opcode == OpcodeOf(cell % 100).value
    ensures r.Some? ==> |r.value.modes| == 3 && forall i :: 0 <= i < 3 ==> 0 <= r.value.modes[i] <= 9
  {
    match OpcodeOf(cell % 100)
    case None => None
    case Some(op) => Some(Instruction(cell, op, [cell / 100 % 10, cell / 1000 % 10, cell / 10000 % 10]))
  }

  /** The cell that encodes an opcode and three mode digits. */
  function Encode(op: Opcode, m0: int, m1: int, m2: int): int
  {
    Code(op) + 100 * m0 + 1000 * m1 + 10000 * m2
  }

  /** Decoding an encoded instruction gives back its opcode and modes. */
  lemma {:induction false} DecodeEncode(op: Opcode, m0: int, m1: int, m2: int)
    requires 0 <= m0 <= 9 && 0 <= m1 <= 9 && 0 <= m2 <= 9
    ensures Decode(Encode(op, m0, m1, m2)) == Some(Instruction(Encode(op, m0, m1, m2), op, [m0, m1, m2]))
  {
    var n := Encode(op, m0, m1, m2);
    var c := Code(op);
    Numbers.DivUnique(n, 100, m0 + 10 * m1 + 100 * m2, c);
    Numbers.DivUnique(n, 1000, m1 + 10 * m2, c + 100 * m0);
    Numbers.DivUnique(n, 10000, m2, c + 100 * m0 + 1000 * m1);
    Numbers.DivUnique(m0 + 10 * m1 + 100 * m2, 10, m1 + 10 * m2, m0);
    Numbers.DivUnique(m1 + 10 * m2, 10, m2, m1);
    Numbers.DivUnique(m2, 10, 0, m2);
  }

  /** Every cell below 100000 that decodes is the encoding of what it decodes to. */
  lemma {:induction false} EncodeDecode(cell: int)
    requires 0 <= cell < 100000 && Decode(cell).Some?
    ensures var i := Decode(cell).value; Encode(i.opcode, i.modes[0], i.modes[1], i.modes[2]) == cell
  {
    var i := Decode(cell).value;
    assert cell == cell % 100 + 100 * (cell / 100);
    assert cell / 100 == cell / 100 % 10 + 10 * (cell / 1000);
    assert cell / 1000 == cell / 1000 % 10 + 10 * (cell / 10000);
    assert cell / 10000 < 10;
  }

  /** A cell of -1 decodes to HALT: Python's floor modulo gives -1 % 100 == 99. */
  lemma DecodeMinusOne()
    ensures Decode(-1) == Some(Instruction(-1, Halt, [9, 9, 9]))
  {
    assert -1 % 100 == 99 && -1 / 100 == -1 && -1 / 1000 == -1 && -1 / 10000 == -1;
  }

  /** The machine state that vm.py keeps in the fields of `Machine`. */
  datatype State = State(memory: seq<int>, inputs: seq<int>, ip: int, inputPointer: nat, output: seq<int>)

  /**
   * Why a run stops abnormally: an instruction cell that does not decode (the
   * ValueError of `Opcode(...)`), an address or instruction that runs off the memory
   * list, or a SAVE with no input left (the IndexErrors).
   */
  datatype Fault = Undecodable(cell: int) | AddressOutOfRange | InputExhausted

  datatype Outcome = Halted | Paused | OutOfFuel | Crashed(fault: Fault)

  /** Where a run stops, and why. */
  datatype Stop = Stop(state: State, outcome: Outcome)

  predicate InRange(m: seq<int>, address: int)
  {
    0 <= address < |m|
  }

  /** A read operand: mode 0 reads `m[raw]`, any other mode uses `raw` literally. */
  function Operand(m: seq<int>, raw: int, mode: int): (r: Option<int>)
    ensures mode != 0 ==> r == Some(raw)
    ensures mode == 0 ==> (r.Some? <==> InRange(m, raw)) && (r.Some? ==> r.value == m[raw])
  {
    if mode != 0 then Some(raw)
    else if InRange(m, raw) then Some(m[raw])
    else None
  }

  /** The instruction at `ip`, decoded. */
  function Fetch(s: State): (r: Result<Instruction, Fault>)
    ensures r.Ok? ==> InRange(s.memory, s.ip) && Decode(s.memory[s.ip]) == Some(r.value)
    ensures r.Err? && !InRange(s.memory, s.ip) ==> r.error == AddressOutOfRange
    ensures r.Err? && InRange(s.memory, s.ip) ==> r.error == Undecodable(s.memory[s.ip])
  {
    if !InRange(s.memory, s.ip) then Err(AddressOutOfRange)
    else match Decode(s.memory[s.ip])
      case None => Err(Undecodable(s.memory[s.ip]))
      case Some(instr) => Ok(instr)
  }

  /** How many cells an opcode occupies, the opcode cell included. */
  function Width(op: Opcode): nat
  {
    match op
    case Add | Multiply | LessThan | Equals => 4
    case JumpIfTrue | JumpIfFalse => 3
    case Save | Print => 2
    case Halt => 1
  }

  /** The value an opcode with a write target stores. */
  function Combine(op: Opcode, a: int, b: int): int
  {
    match op
    case Add => a + b
    case Multiply => a * b
    case LessThan => if a < b then 1 else 0
    case Equals => if a == b then 1 else 0
    case _ => 0
  }

  /**
   * One non-HALT instruction of `Machine.execute`. The state is untouched when the
   * instruction faults, as in the source, where every failing read or store comes
   * before the first update.
   */
  function Perform(s: State, instr: Instruction): (r: Result<State, Fault>)
    requires instr.opcode != Halt && |instr.modes| == 3
    ensures r.Ok? ==> |r.value.memory| == |s.memory| && r.value.inputs == s.inputs
    ensures r.Ok? ==> r.value.inputPointer == s.inputPointer + (if instr.opcode == Save then 1 else 0)
    ensures r.Ok? && instr.opcode != Print ==> r.value.output == s.output
    ensures r.Ok? && instr.opcode == Print ==>
      |r.value.output| == |s.output| + 1 && r.value.output[..|s.output|] == s.output
    ensures r.Err? ==> r.error == AddressOutOfRange || r.error == InputExhausted
  {
    var m, ip := s.memory, s.ip;
    if !(0 <= ip && ip + Width(instr.opcode) <= |m|) then Err(AddressOutOfRange)
    else match instr.opcode
      case Add | Multiply | LessThan | Equals =>
        var a, b, c := Operand(m, m[ip + 1], instr.modes[0]), Operand(m, m[ip + 2], instr.modes[1]), m[ip + 3];
        if a.None? || b.None? || !InRange(m, c) then Err(AddressOutOfRange)
        else Ok(s.(memory := m[c := Combine(instr.opcode, a.value, b.value)], ip := ip + 4))
      case Save =>
        var a := m[ip + 1];
        if s.inputPointer >= |s.inputs| then Err(InputExhausted)
        else if !InRange(m, a) then Err(AddressOutOfRange)
        else Ok(s.(memory := m[a := s.inputs[s.inputPointer]], inputPointer := s.inputPointer + 1, ip := ip + 2))
      case Print =>
        var a := Operand(m, m[ip + 1], instr.modes[0]);
        if a.None? then Err(AddressOutOfRange)
        else Ok(s.(output := s.output + [a.value], ip := ip + 2))
      case JumpIfTrue | JumpIfFalse =>
        var a, b := Operand(m, m[ip + 1], instr.modes[0]), Operand(m, m[ip + 2], instr.modes[1]);
        if a.None? || b.None? then Err(AddressOutOfRange)
        else
          var jump := (a.value != 0) == (instr.opcode == JumpIfTrue);
          Ok(s.(ip := if jump then b.value else ip + 3))
  }

  /**
   * `execute()` with at most `fuel` instructions: it stops at HALT, right after a
   * PRINT when `pause` is set, on a fault, or when the fuel is spent.
   */
  function Run(pause: bool, s: State, fuel: nat): Stop
    decreases fuel
  {
    match Fetch(s)
    case Err(f) => Stop(s, Crashed(f))
    case Ok(instr) =>
      if instr.opcode == Halt then Stop(s, Halted)
      else if fuel == 0 then Stop(s, OutOfFuel)
      else match Perform(s, instr)
        case Err(f) => Stop(s, Crashed(f))
        case Ok(next) =>
          if pause && instr.opcode == Print then Stop(next, Paused)
          else Run(pause, next, fuel - 1)
  }

  /** The `halted` property: decode the cell at `ip` and compare with HALT. */
  function HaltedAt(s: State): (r: Result<bool, Fault>)
    ensures r == Ok(true) <==> InRange(s.memory, s.ip) && s.memory[s.ip] % 100 == 99
    ensures r == Ok(false) <==> InRange(s.memory, s.ip) && OpcodeOf(s.memory[s.ip] % 100).Some? && s.memory[s.ip] % 100 != 99
  {
    match Fetch(s)
    case Err(f) => Err(f)
    case Ok(instr) => Ok(instr.opcode == Halt)
  }

  // ---- What each opcode does ----

  /**
   * ADD and MULTIPLY (and the comparisons) store into `memory[c]`, where `c` is the
   * raw third parameter whatever its mode; every other cell stays, and `ip` moves by 4.
   */
  lemma {:induction false} WriteStep(s: State, instr: Instruction)
    requires instr.opcode in {Add, Multiply, LessThan, Equals} && |instr.modes| == 3
    requires Perform(s, instr).Ok?
    ensures var s' := Perform(s, instr).value;
      var c := s.memory[s.ip + 3];
      var a := Operand(s.memory, s.memory[s.ip + 1], instr.modes[0]);
      var b := Operand(s.memory, s.memory[s.ip + 2], instr.modes[1]);
      a.Some? && b.Some? && InRange(s.memory, c) &&
      s'.memory[c] == Combine(instr.opcode, a.value, b.value) &&
      (forall j :: 0 <= j < |s.memory| && j != c ==> s'.memory[j] == s.memory[j]) &&
      s'.ip == s.ip + 4 && s'.inputPointer == s.inputPointer && s'.output == s.output
  {
  }

  /** The mode of a write target never matters. */
  lemma {:induction false} WriteTargetIgnoresMode(s: State, instr: Instruction, mode: int)
    requires |instr.modes| == 3
    requires instr.opcode in {Add, Multiply, LessThan, Equals, Save}
    ensures var k := if instr.opcode == Save then 0 else 2;
      Perform(s, instr) == Perform(s, instr.(modes := instr.modes[k := mode]))
  {
  }

  /** LESS_THAN and EQUALS store exactly 0 or 1, and 1 exactly when the test holds. */
  lemma {:induction false} CompareStoresBit(s: State, instr: Instruction)
    requires instr.opcode in {LessThan, Equals} && |instr.modes| == 3
    requires Perform(s, instr).Ok?
    ensures var s' := Perform(s, instr).value;
      var c := s.memory[s.ip + 3];
      var a := Operand(s.memory, s.memory[s.ip + 1], instr.modes[0]).value;
      var b := Operand(s.memory, s.memory[s.ip + 2], instr.modes[1]).value;
      (s'.memory[c] == 0 || s'.memory[c] == 1) &&
      (s'.memory[c] == 1 <==> (if instr.opcode == LessThan then a < b else a == b))
  {
    WriteStep(s, instr);
  }

  /**
   * SAVE stores the next unread input at the raw address `memory[ip+1]`, advances
   * the input cursor by one and `ip` by two; the input list is never changed.
   */
  lemma {:induction false} SaveStep(s: State, instr: Instruction)
    requires instr.opcode == Save && |instr.modes| == 3
    requires Perform(s, instr).Ok?
    ensures var s' := Perform(s, instr).value;
      s.inputPointer < |s.inputs| &&
      s'.memory == s.memory[s.memory[s.ip + 1] := s.inputs[s.inputPointer]] &&
      s'.inputs == s.inputs && s'.inputPointer == s.inputPointer + 1 &&
      s'.ip == s.ip + 2 && s'.output == s.output
  {
  }

  /** PRINT appends exactly one value and moves `ip` by two. */
  lemma {:induction false} PrintStep(s: State, instr: Instruction)
    requires instr.opcode == Print && |instr.modes| == 3
    requires Perform(s, instr).Ok?
    ensures var s' := Perform(s, instr).value;
      var a := Operand(s.memory, s.memory[s.ip + 1], instr.modes[0]);
      a.Some? && s'.output == s.output + [a.value] &&
      s'.memory == s.memory && s'.ip == s.ip + 2 && s'.inputPointer == s.inputPointer
  {
  }

  /** The jumps go to the second operand or fall through by three; memory is untouched. */
  lemma {:induction false} JumpStep(s: State, instr: Instruction)
    requires instr.opcode in {JumpIfTrue, JumpIfFalse} && |instr.modes| == 3
    requires Perform(s, instr).Ok?
    ensures var s' := Perform(s, instr).value;
      var a := Operand(s.memory, s.memory[s.ip + 1], instr.modes[0]);
      var b := Operand(s.memory, s.memory[s.ip + 2], instr.modes[1]);
      a.Some? && b.Some? && s'.memory == s.memory && s'.output == s.output &&
      s'.ip == (if (a.value != 0) == (instr.opcode == JumpIfTrue) then b.value else s.ip + 3)
  {
  }

  // ---- What a run guarantees ----

  /**
   * Over a whole run, memory keeps its length, the input list is unchanged, the
   * cursor only moves forward, and the earlier output stays as a prefix.
   */
  lemma {:induction false} RunFrame(pause: bool, s: State, fuel: nat)
    ensures var t := Run(pause, s, fuel).state;
      |t.memory| == |s.memory| && t.inputs == s.inputs &&
      s.inputPointer <= t.inputPointer && |s.output| <= |t.output| && t.output[..|s.output|] == s.output
    decreases fuel
  {
    match Fetch(s)
    case Err(_) =>
    case Ok(instr) =>
      if instr.opcode != Halt && fuel > 0 {
        match Perform(s, instr)
        case Err(_) =>
        case Ok(next) =>
          if !(pause && instr.opcode == Print) {
            RunFrame(pause, next, fuel - 1);
            var t := Run(pause, next, fuel - 1).state;
            assert t.output[..|s.output|] == t.output[..|next.output|][..|s.output|];
          }
      }
  }

  /**
   * `execute()` returns normally only at HALT or, with `pause`, right after one
   * PRINT: a halted return leaves the cell at `ip` decoding to HALT, a pause
   * happens only when `pause` is set and adds exactly one output value.
   */
  lemma {:induction false} RunStops(pause: bool, s: State, fuel: nat)
    ensures var r := Run(pause, s, fuel);
      (r.outcome == Halted ==> HaltedAt(r.state) == Ok(true)) &&
      (r.outcome == Halted && pause ==> r.state.output == s.output) &&
      (r.outcome == Paused ==> pause && |r.state.output| == |s.output| + 1)
    decreases fuel
  {
    match Fetch(s)
    case Err(_) =>
    case Ok(instr) =>
      if instr.opcode != Halt && fuel > 0 {
        match Perform(s, instr)
        case Err(_) =>
        case Ok(next) =>
          if !(pause && instr.opcode == Print) {
            RunStops(pause, next, fuel - 1);
          }
      }
  }

  /** The program of section "day 2" of the puzzle: position-mode ADD and MULTIPLY. */
  lemma ArithmeticExample()
    ensures var r := Run(false, State([1, 9, 10, 3, 2, 3, 11, 0, 99, 30, 40, 50], [], 0, 0, []), 2);
      r.outcome == Halted && r.state.memory[0] == 3500
  {
    var prog := [1, 9, 10, 3, 2, 3, 11, 0, 99, 30, 40, 50];
    var s0 := State(prog, [], 0, 0, []);
    var s1 := s0.(memory := prog[3 := 70], ip := 4);
    var s2 := s1.(memory := s1.memory[0 := 3500], ip := 8);
    assert prog[0] == 1 && prog[9] == 30 && prog[10] == 40;
    assert Decode(1) == Some(Instruction(1, Add, [0, 0, 0]));
    assert Decode(2) == Some(Instruction(2, Multiply, [0, 0, 0]));
    assert Decode(99) == Some(Instruction(99, Halt, [0, 0, 0]));
    assert Fetch(s0) == Ok(Instruction(1, Add, [0, 0, 0]));
    assert Perform(s0, Fetch(s0).value) == Ok(s1);
    assert Run(false, s0, 2) == Run(false, s1, 1);
    assert s1.memory[4] == 2 && s1.memory[3] == 70 && s1.memory[11] == 50;
    assert Fetch(s1) == Ok(Instruction(2, Multiply, [0, 0, 0]));
    assert Perform(s1, Fetch(s1).value) == Ok(s2);
    assert Run(false, s1, 1) == Run(false, s2, 0);
    assert s2.memory[8] == 99;
    assert Run(false, s2, 0) == Stop(s2, Halted);
  }

  /** "Is the input equal to 8?": input 8 prints 1, input 7 prints 0. */
  lemma {:induction false} EqualsEightExample(x: int)
    ensures var r := Run(false, State([3, 9, 8, 9, 10, 9, 4, 9, 99, -1, 8], [x], 0, 0, []), 3);
      r.outcome == Halted && r.state.output == [if x == 8 then 1 else 0]
  {
    var prog := [3, 9, 8, 9, 10, 9, 4, 9, 99, -1, 8];
    var s0 := State(prog, [x], 0, 0, []);
    var s1 := s0.(memory := prog[9 := x], inputPointer := 1, ip := 2);
    var bit := if x == 8 then 1 else 0;
    var s2 := s1.(memory := s1.memory[9 := bit], ip := 6);
    var s3 := s2.(output := [bit], ip := 8);
    assert prog[0] == 3 && prog[2] == 8 && prog[6] == 4 && prog[8] == 99 && prog[10] == 8;
    assert Decode(3) == Some(Instruction(3, Save, [0, 0, 0]));
    assert Decode(8) == Some(Instruction(8, Equals, [0, 0, 0]));
    assert Decode(4) == Some(Instruction(4, Print, [0, 0, 0]));
    assert Decode(99) == Some(Instruction(99, Halt, [0, 0, 0]));
    assert Fetch(s0) == Ok(Instruction(3, Save, [0, 0, 0]));
    assert Perform(s0, Fetch(s0).value) == Ok(s1);
    assert Run(false, s0, 3) == Run(false, s1, 2);
    assert s1.memory[2] == 8 && s1.memory[9] == x && s1.memory[10] == 8;
    assert Fetch(s1) == Ok(Instruction(8, Equals, [0, 0, 0]));
    assert Perform(s1, Fetch(s1).value) == Ok(s2);
    assert Run(false, s1, 2) == Run(false, s2, 1);
    assert s2.memory[6] == 4 && s2.memory[7] == 9 && s2.memory[9] == bit;
    assert Fetch(s2) == Ok(Instruction(4, Print, [0, 0, 0]));
    assert Perform(s2, Fetch(s2).value) == Ok(s3);
    assert Run(false, s2, 1) == Run(false, s3, 0);
    assert s3.memory[8] == 99;
    assert Run(false, s3, 0) == Stop(s3, Halted);
  }

  /**
   * vm.py's `Machine`: the same state as State, held in fields that execute()
   * updates. `memory` and `inputs` are the machine's own values; the dataclass
   * instead keeps the caller's two lists, so its writes and the caller's
   * appends are shared, which this class does not capture.
   */
  class Machine {
    var memory: seq<int>
    var inputs: seq<int>
    var ip: int
    var inputPointer: nat
    var output: seq<int>
    var pauseOnOutput: bool

    constructor (memory: seq<int>, inputs: seq<int>, pauseOnOutput: bool)
      ensures Snapshot() == State(memory, inputs, 0, 0, []) && this.pauseOnOutput == pauseOnOutput
    {
      this.memory := memory;
      this.inputs := inputs;
      this.ip := 0;
      this.inputPointer := 0;
      this.output := [];
      this.pauseOnOutput := pauseOnOutput;
    }

    function Snapshot(): State
      reads this
    {
      State(memory, inputs, ip, inputPointer, output)
    }

    /** The `halted` property: true exactly when the cell at `ip` is HALT modulo 100. */
    function IsHalted(): (r: Result<bool, Fault>)
      reads this
      ensures r == Ok(true) <==> 0 <= ip < |memory| && memory[ip] % 100 == 99
    {
      HaltedAt(Snapshot())
    }

    /**
     * `execute()`, running at most `fuel` instructions: the new state and the reason
     * for stopping are exactly what Run computes from the old state.
     */
    method Execute(fuel: nat) returns (outcome: Outcome)
      modifies this
      ensures Stop(Snapshot(), outcome) == Run(old(pauseOnOutput), old(Snapshot()), fuel)
      ensures pauseOnOutput == old(pauseOnOutput)
    {
      var steps := fuel;
      while true
        invariant Run(pauseOnOutput, Snapshot(), steps) == Run(old(pauseOnOutput), old(Snapshot()), fuel)
        invariant pauseOnOutput == old(pauseOnOutput)
        decreases steps
      {
        if !(0 <= ip < |memory|) {
          return Crashed(AddressOutOfRange);
        }
        var decoded := Decode(memory[ip]);
        if decoded.None? {
          return Crashed(Undecodable(memory[ip]));
        }
        var instruction := decoded.value;
        if instruction.opcode == Halt {
          return Halted;
        }
        if steps == 0 {
          return OutOfFuel;
        }
        ghost var before := Snapshot();
        assert Fetch(before) == Ok(instruction);
        var fault := ExecuteInstruction(instruction);
        if fault.Some? {
          return Crashed(fault.value);
        }
        if instruction.opcode == Print && pauseOnOutput {
          return Paused;
        }
        steps := steps - 1;
      }
    }

    /**
     * The body of the `while` loop of `execute()` for one decoded non-HALT
     * instruction; on a fault nothing has changed.
     */
    method ExecuteInstruction(instruction: Instruction) returns (fault: Option<Fault>)
      requires instruction.opcode != Halt && |instruction.modes| == 3
      modifies this
      ensures fault.None? ==> Perform(old(Snapshot()), instruction) == Ok(Snapshot())
      ensures fault.Some? ==> Perform(old(Snapshot()), instruction) == Err(fault.value) && Snapshot() == old(Snapshot())
      ensures pauseOnOutput == old(pauseOnOutput)
    {
      if !(0 <= ip && ip + Width(instruction.opcode) <= |memory|) {
        return Some(AddressOutOfRange);
      }
      match instruction.opcode {
        case Add | Multiply | LessThan | Equals =>
          var a := Operand(memory, memory[ip + 1], instruction.modes[0]);
          var b := Operand(memory, memory[ip + 2], instruction.modes[1]);
          var c := memory[ip + 3];
          if a.None? || b.None? || !InRange(memory, c) {
            return Some(AddressOutOfRange);
          }
          memory := memory[c := Combine(instruction.opcode, a.value, b.value)];
          ip := ip + 4;
        case Save =>
          var a := memory[ip + 1];
          if inputPointer >= |inputs| {
            return Some(InputExhausted);
          }
          if !InRange(memory, a) {
            return Some(AddressOutOfRange);
          }
          memory := memory[a := inputs[inputPointer]];
          inputPointer := inputPointer + 1;
          ip := ip + 2;
        case Print =>
          var a := Operand(memory, memory[ip + 1], instruction.modes[0]);
          if a.None? {
            return Some(AddressOutOfRange);
          }
          output := output + [a.value];
          ip := ip + 2;
        case JumpIfTrue | JumpIfFalse =>
          var a := Operand(memory, memory[ip + 1], instruction.modes[0]);
          var b := Operand(memory, memory[ip + 2], instruction.modes[1]);
          if a.None? || b.None? {
            return Some(AddressOutOfRange);
          }
          var jump := (a.value != 0) == (instruction.opcode == JumpIfTrue);
          ip := if jump then b.value else ip + 3;
      }
      return None;
    }
  }
}
