/**
 * day5.py: the draft of the Intcode machine in which every SAVE stores the same
 * input value, PRINT only collects, the modes are read from the decimal string of
 * the instruction, and `execute` works in place on the caller's list.
 */
module Day5 {
  import opened Wrappers
  import opened Decimal
  import Vm

  /** `"0" * n` (empty for n <= 0). */
  function Zeros(n: int): (s: string)
    ensures |s| == if n <= 0 then 0 else n
    ensures forall i :: 0 <= i < |s| ==> s[i] == '0'
    decreases n
  {
    if n <= 0 then "" else "0" + Zeros(n - 1)
  }

  /** `modes = str(instruction)[:-2]`, then left-padded with zeros to three characters. */
  function ModeString(instruction: int): (s: string)
  {
    var text := IntStr(instruction);
    var modes := if |text| >= 2 then text[..|text| - 2] else "";
    Zeros(3 - |modes|) + modes
  }

  /** `[int(mode) for mode in reversed(modes)]`; None for the ValueError of `int("-")`. */
  function ModeDigits(s: string): (r: Option<seq<int>>)
    ensures r.Some? <==> AllDigits(s)
    ensures r.Some? ==> |r.value| == |s| && forall i :: 0 <= i < |s| ==> 0 <= r.value[i] <= 9
  {
    if AllDigits(s) then Some(seq(|s|, i requires 0 <= i < |s| => DigitValue(s[|s| - 1 - i] ) as int))
    else None
  }

  /** Mode `i` is read from the `i`-th character counted from the right. */
  lemma {:induction false} ModeDigitAt(s: string, i: nat)
    requires AllDigits(s) && i < |s|
    ensures ModeDigits(s).value[i] == DigitValue(s[|s| - 1 - i]) as int
  {
  }

  /** day5.py's `Instruction(instruction)`: the opcode from `% 100`, the modes from the string. */
  function Decode(instruction: int): (r: Option<Vm.Instruction>)
    ensures r.Some? ==> r.value.instruction == instruction && |r.value.modes| >= 3
    ensures r.Some? ==> Vm.OpcodeOf(instruction % 100) == Some(r.value.opcode)
  {
    match Vm.OpcodeOf(instruction % 100)
    case None => None
    case Some(op) =>
      match ModeDigits(ModeString(instruction))
      case None => None
      case Some(modes) => Some(Vm.Instruction(instruction, op, modes))
  }

  /** For a non-negative instruction the padded mode string holds its decimal digits from the hundreds up. */
  lemma {:induction false} ModeStringDigit(n: nat, i: nat)
    requires i < 3
    ensures var p := ModeString(n); |p| >= 3 && p[|p| - 1 - i] == DigitChar((n / Pow10(i + 2)) % 10)
  {
    var text := NatStr(n);
    var L := |text|;
    assert IntStr(n) == text;
    var prefix := if L >= 2 then text[..L - 2] else "";
    var padded := ModeString(n);
    assert padded == Zeros(3 - |prefix|) + prefix;
    if i < |prefix| {
      assert padded[|padded| - 1 - i] == prefix[|prefix| - 1 - i];
      assert prefix[|prefix| - 1 - i] == text[L - 1 - (i + 2)];
      NatStrDigit(n, i + 2);
    } else {
      assert padded[|padded| - 1 - i] == Zeros(3 - |prefix|)[|padded| - 1 - i];
      HighDigitZero(n, i + 2);
    }
  }

  /** The padded mode string of a non-negative instruction is longer than three exactly from 100000 on. */
  lemma {:induction false} ModeStringLength(n: nat)
    ensures AllDigits(ModeString(n))
    ensures |ModeString(n)| > 3 <==> n >= 100000
  {
    var text := NatStr(n);
    var L := |text|;
    assert IntStr(n) == text;
    var prefix := if L >= 2 then text[..L - 2] else "";
    assert ModeString(n) == Zeros(3 - |prefix|) + prefix;
    assert Pow10(5) == 100000;
    NatStrLength(n);
    if n >= 100000 {
      if L <= 5 {
        Pow10Monotone(L, 5);
      }
    } else if L >= 6 {
      Pow10Monotone(5, L - 1);
    }
  }

  /**
   * For every non-negative instruction the string decoder accepts what vm.py's
   * arithmetic decoder accepts, its first three modes are vm.py's digits, and it
   * yields more than three modes exactly for instructions of 100000 or more.
   */
  lemma {:induction false} DecodeAgreesWithVm(n: nat)
    ensures Decode(n).Some? <==> Vm.Decode(n).Some?
    ensures Decode(n).Some? ==> Decode(n).value.modes[..3] == Vm.Decode(n).value.modes
    ensures Decode(n).Some? ==> (|Decode(n).value.modes| > 3 <==> n >= 100000)
  {
    ModeStringLength(n);
    if Decode(n).Some? {
      var modes := Decode(n).value.modes;
      var vm := Vm.Decode(n).value.modes;
      forall i | 0 <= i < 3
        ensures modes[i] == vm[i]
      {
        ModeAgrees(n, i);
      }
      assert modes[..3] == vm;
    }
  }

  /** Mode `i` of the string decoder is the digit vm.py takes with `// 10 ** (i + 2) % 10`. */
  lemma {:induction false} ModeAgrees(n: nat, i: nat)
    requires Decode(n).Some? && i < 3
    ensures Decode(n).value.modes[i] == Vm.Decode(n).value.modes[i]
  {
    var padded := ModeString(n);
    var d := (n / Pow10(i + 2)) % 10;
    ModeStringDigit(n, i);
    ModeDigitAt(padded, i);
    DigitCharValue(d);
    var vm := Vm.Decode(n).value.modes;
    assert vm == [n / 100 % 10, n / 1000 % 10, n / 10000 % 10];
    if i == 0 {
      assert Pow10(2) == 100;
    } else if i == 1 {
      assert Pow10(3) == 1000;
    } else {
      assert Pow10(4) == 10000;
    }
    assert vm[i] == d;
  }

  /**
   * Negative instructions: from -9 to -1 the string has no mode characters, so all
   * modes are 0 (vm.py reads 9s there); from -10 down the '-' lands among the mode
   * characters and `int("-")` raises.
   */
  lemma {:induction false} DecodeNegative(n: int)
    requires n < 0 && Vm.OpcodeOf(n % 100).Some?
    ensures -10 < n ==> Decode(n) == Some(Vm.Instruction(n, Vm.OpcodeOf(n % 100).value, [0, 0, 0]))
    ensures n <= -10 ==> Decode(n) == None
  {
    var text := IntStr(n);
    assert text == "-" + NatStr(-n);
    var L := |text|;
    if -10 < n {
      assert L == 2;
      assert ModeString(n) == "000";
      assert DigitValue('0') == 0;
      assert ModeDigits("000").value == [0, 0, 0];
    } else {
      assert |NatStr(-n)| >= 2;
      var modes := text[..L - 2];
      var padded := ModeString(n);
      assert padded == Zeros(3 - |modes|) + modes;
      assert padded[|padded| - |modes|] == '-';
    }
  }

  /** day5.py's local state: the program list, the instruction pointer and the output list. */
  datatype State = State(memory: seq<int>, pointer: int, output: seq<int>)

  datatype Stop = Stop(state: State, outcome: Vm.Outcome)

  function Fetch(s: State): (r: Result<Vm.Instruction, Vm.Fault>)
    ensures r.Ok? ==> Vm.InRange(s.memory, s.pointer) && Decode(s.memory[s.pointer]) == Some(r.value)
  {
    if !Vm.InRange(s.memory, s.pointer) then Err(Vm.AddressOutOfRange)
    else match Decode(s.memory[s.pointer])
      case None => Err(Vm.Undecodable(s.memory[s.pointer]))
      case Some(instr) => Ok(instr)
  }

  /** One non-HALT instruction of day5.py's `execute`; SAVE always stores `input`. */
  function Perform(s: State, instr: Vm.Instruction, input: int): (r: Result<State, Vm.Fault>)
    requires instr.opcode != Vm.Halt && |instr.modes| >= 3
    ensures r.Ok? ==> |r.value.memory| == |s.memory|
    ensures r.Ok? ==> |s.output| <= |r.value.output| <= |s.output| + 1 && r.value.output[..|s.output|] == s.output
  {
    var m, p := s.memory, s.pointer;
    if !(0 <= p && p + Vm.Width(instr.opcode) <= |m|) then Err(Vm.AddressOutOfRange)
    else match instr.opcode
      case Add | Multiply | LessThan | Equals =>
        var a, b, c := Vm.Operand(m, m[p + 1], instr.modes[0]), Vm.Operand(m, m[p + 2], instr.modes[1]), m[p + 3];
        if a.None? || b.None? || !Vm.InRange(m, c) then Err(Vm.AddressOutOfRange)
        else Ok(s.(memory := m[c := Vm.Combine(instr.opcode, a.value, b.value)], pointer := p + 4))
      case Save =>
        var a := m[p + 1];
        if !Vm.InRange(m, a) then Err(Vm.AddressOutOfRange)
        else Ok(s.(memory := m[a := input], pointer := p + 2))
      case Print =>
        var a := Vm.Operand(m, m[p + 1], instr.modes[0]);
        if a.None? then Err(Vm.AddressOutOfRange)
        else Ok(s.(output := s.output + [a.value], pointer := p + 2))
      case JumpIfTrue | JumpIfFalse =>
        var a, b := Vm.Operand(m, m[p + 1], instr.modes[0]), Vm.Operand(m, m[p + 2], instr.modes[1]);
        if a.None? || b.None? then Err(Vm.AddressOutOfRange)
        else
          var jump := (a.value != 0) == (instr.opcode == Vm.JumpIfTrue);
          Ok(s.(pointer := if jump then b.value else p + 3))
  }

  /** `execute(program, input)` with at most `fuel` instructions. */
  function Run(input: int, s: State, fuel: nat): Stop
    decreases fuel
  {
    match Fetch(s)
    case Err(f) => Stop(s, Vm.Crashed(f))
    case Ok(instr) =>
      if instr.opcode == Vm.Halt then Stop(s, Vm.Halted)
      else if fuel == 0 then Stop(s, Vm.OutOfFuel)
      else match Perform(s, instr, input)
        case Err(f) => Stop(s, Vm.Crashed(f))
        case Ok(next) => Run(input, next, fuel - 1)
  }

  /** The vm.py state with a one-element input list holding `input`. */
  function Lift(s: State, input: int): Vm.State
  {
    Vm.State(s.memory, [input], s.pointer, 0, s.output)
  }

  function Project(r: Result<Vm.State, Vm.Fault>): Result<State, Vm.Fault>
  {
    match r
    case Ok(t) => Ok(State(t.memory, t.ip, t.output))
    case Err(f) => Err(f)
  }

  /**
   * Each day5.py instruction does what the same instruction does in vm.py, for a
   * machine whose next unread input is `input`: the drafts differ only in where
   * SAVE's value comes from and in decoding.
   */
  lemma {:induction false} PerformAgreesWithVm(s: State, instr: Vm.Instruction, input: int)
    requires instr.opcode != Vm.Halt && |instr.modes| >= 3
    ensures Perform(s, instr, input) == Project(Vm.Perform(Lift(s, input), instr.(modes := instr.modes[..3])))
  {
  }

  /** Every SAVE stores the one `program_input`, at the raw address `memory[pointer+1]`. */
  lemma {:induction false} SaveStoresInput(s: State, instr: Vm.Instruction, input: int)
    requires instr.opcode == Vm.Save && |instr.modes| >= 3
    requires Perform(s, instr, input).Ok?
    ensures Perform(s, instr, input).value == s.(memory := s.memory[s.memory[s.pointer + 1] := input], pointer := s.pointer + 2)
  {
    PerformAgreesWithVm(s, instr, input);
    Vm.SaveStep(Lift(s, input), instr.(modes := instr.modes[..3]));
  }

  /**
   * A run never pauses; it returns normally only on a cell that decodes to HALT;
   * memory keeps its length and PRINT values are appended in execution order.
   */
  lemma {:induction false} RunProperties(input: int, s: State, fuel: nat)
    ensures var r := Run(input, s, fuel);
      r.outcome != Vm.Paused &&
      (r.outcome == Vm.Halted ==> Fetch(r.state).Ok? && Fetch(r.state).value.opcode == Vm.Halt) &&
      |r.state.memory| == |s.memory| &&
      |s.output| <= |r.state.output| && r.state.output[..|s.output|] == s.output
    decreases fuel
  {
    match Fetch(s)
    case Err(_) =>
    case Ok(instr) =>
      if instr.opcode != Vm.Halt && fuel > 0 {
        match Perform(s, instr, input)
        case Err(_) =>
        case Ok(next) =>
          RunProperties(input, next, fuel - 1);
          var t := Run(input, next, fuel - 1).state;
          assert t.output[..|s.output|] == t.output[..|next.output|][..|s.output|];
      }
  }

  /**
   * day5.py's `execute(program, program_input)`: it changes the caller's list in
   * place and returns it with the PRINT values, exactly as Run computes.
   */
  method Execute(program: array<int>, programInput: int, fuel: nat) returns (outcome: Vm.Outcome, output: seq<int>)
    modifies program
    ensures var r := Run(programInput, State(old(program[..]), 0, []), fuel);
      program[..] == r.state.memory && output == r.state.output && outcome == r.outcome
  {
    var pointer := 0;
    output := [];
    var steps := fuel;
    while true
      invariant Run(programInput, State(program[..], pointer, output), steps) ==
                Run(programInput, State(old(program[..]), 0, []), fuel)
      decreases steps
    {
      if !(0 <= pointer < program.Length) {
        return Vm.Crashed(Vm.AddressOutOfRange), output;
      }
      var decoded := Decode(program[pointer]);
      if decoded.None? {
        return Vm.Crashed(Vm.Undecodable(program[pointer])), output;
      }
      var instruction := decoded.value;
      if instruction.opcode == Vm.Halt {
        return Vm.Halted, output;
      }
      if steps == 0 {
        return Vm.OutOfFuel, output;
      }
      ghost var before := State(program[..], pointer, output);
      assert Fetch(before) == Ok(instruction);
      var fault;
      fault, pointer, output := ExecuteInstruction(program, pointer, output, instruction, programInput);
      if fault.Some? {
        return Vm.Crashed(fault.value), output;
      }
      steps := steps - 1;
    }
  }

  /** The body of day5.py's `while` loop for one decoded non-HALT instruction. */
  method ExecuteInstruction(program: array<int>, pointer: int, output: seq<int>, instruction: Vm.Instruction, input: int)
    returns (fault: Option<Vm.Fault>, pointer': int, output': seq<int>)
    requires instruction.opcode != Vm.Halt && |instruction.modes| >= 3
    modifies program
    ensures var r := Perform(State(old(program[..]), pointer, output), instruction, input);
      (fault.None? ==> r == Ok(State(program[..], pointer', output'))) &&
      (fault.Some? ==> r == Err(fault.value) && program[..] == old(program[..]) && output' == output)
  {
    var m := program[..];
    pointer', output' := pointer, output;
    if !(0 <= pointer && pointer + Vm.Width(instruction.opcode) <= program.Length) {
      return Some(Vm.AddressOutOfRange), pointer', output';
    }
    match instruction.opcode {
      case Add | Multiply | LessThan | Equals =>
        var a := Vm.Operand(m, program[pointer + 1], instruction.modes[0]);
        var b := Vm.Operand(m, program[pointer + 2], instruction.modes[1]);
        var c := program[pointer + 3];
        if a.None? || b.None? || !(0 <= c < program.Length) {
          return Some(Vm.AddressOutOfRange), pointer', output';
        }
        program[c] := Vm.Combine(instruction.opcode, a.value, b.value);
        pointer' := pointer + 4;
      case Save =>
        var a := program[pointer + 1];
        if !(0 <= a < program.Length) {
          return Some(Vm.AddressOutOfRange), pointer', output';
        }
        program[a] := input;
        pointer' := pointer + 2;
      case Print =>
        var a := Vm.Operand(m, program[pointer + 1], instruction.modes[0]);
        if a.None? {
          return Some(Vm.AddressOutOfRange), pointer', output';
        }
        output' := output + [a.value];
        pointer' := pointer + 2;
      case JumpIfTrue | JumpIfFalse =>
        var a := Vm.Operand(m, program[pointer + 1], instruction.modes[0]);
        var b := Vm.Operand(m, program[pointer + 2], instruction.modes[1]);
        if a.None? || b.None? {
          return Some(Vm.AddressOutOfRange), pointer', output';
        }
        var jump := (a.value != 0) == (instruction.opcode == Vm.JumpIfTrue);
        pointer' := if jump then b.value else pointer + 3;
    }
    return None, pointer', output';
  }
}
