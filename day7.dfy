/**
 * day7.py: the pausing Intcode machine used for the amplifier circuits. It decodes
 * instructions from their decimal string (the same decoder as day5.py, Day5.Decode)
 * and, in two places, reads the module-level `program` list instead of its own
 * memory. That list is the listing the amplifiers were copied from and is never
 * written, so it is the explicit read-only `listing` parameter here.
 */
module Day7 {
  import opened Wrappers
  import Vm
  import Day5
  import Decimal

  /** `Instruction(cells[ip])`: an IndexError off the list, a ValueError when it does not decode. */
  function FetchFrom(cells: seq<int>, ip: int): (r: Result<Vm.Instruction, Vm.Fault>)
    ensures r.Ok? ==> Vm.InRange(cells, ip) && Day5.Decode(cells[ip]) == Some(r.value)
    ensures r.Err? && !Vm.InRange(cells, ip) ==> r.error == Vm.AddressOutOfRange
    ensures r.Err? && Vm.InRange(cells, ip) ==> r.error == Vm.Undecodable(cells[ip])
  {
    if !Vm.InRange(cells, ip) then Err(Vm.AddressOutOfRange)
    else match Day5.Decode(cells[ip])
      case None => Err(Vm.Undecodable(cells[ip]))
      case Some(instr) => Ok(instr)
  }

  /**
   * EQUALS as day7.py writes it: the three raw parameters are sliced from the
   * listing, the operands they name are read from the machine's own memory, and
   * the bit is stored into its own memory.
   */
  function PerformEquals(listing: seq<int>, s: Vm.State, instr: Vm.Instruction): (r: Result<Vm.State, Vm.Fault>)
    requires |instr.modes| >= 3
  {
    var m, ip := s.memory, s.ip;
    if !(0 <= ip && ip + 4 <= |listing|) then Err(Vm.AddressOutOfRange)
    else
      var a, b, c := Vm.Operand(m, listing[ip + 1], instr.modes[0]), Vm.Operand(m, listing[ip + 2], instr.modes[1]), listing[ip + 3];
      if a.None? || b.None? || !Vm.InRange(m, c) then Err(Vm.AddressOutOfRange)
      else Ok(s.(memory := m[c := if a.value == b.value then 1 else 0], ip := ip + 4))
  }

  /**
   * One non-HALT instruction of `Machine.execute`: every opcode but EQUALS is the
   * vm.py instruction on the first three modes (the two files share that code line
   * for line); EQUALS reads its parameters from the listing.
   */
  function Perform(listing: seq<int>, s: Vm.State, instr: Vm.Instruction): (r: Result<Vm.State, Vm.Fault>)
    requires instr.opcode != Vm.Halt && |instr.modes| >= 3
    ensures r.Ok? ==> |r.value.memory| == |s.memory| && r.value.inputs == s.inputs
    ensures r.Ok? ==> r.value.inputPointer == s.inputPointer + (if instr.opcode == Vm.Save then 1 else 0)
    ensures r.Ok? && instr.opcode != Vm.Print ==> r.value.output == s.output
    ensures r.Ok? && instr.opcode == Vm.Print ==>
      |r.value.output| == |s.output| + 1 && r.value.output[..|s.output|] == s.output
  {
    if instr.opcode == Vm.Equals then PerformEquals(listing, s, instr)
    else Vm.Perform(s, instr.(modes := instr.modes[..3]))
  }

  /**
   * The rest of `execute()` once `fetched` is the decoded current instruction: the
   * first instruction of a call is decoded from the machine's own memory, every
   * later one from the listing.
   */
  function Continue(listing: seq<int>, pause: bool, s: Vm.State, fetched: Result<Vm.Instruction, Vm.Fault>, fuel: nat): Vm.Stop
    requires fetched.Ok? ==> |fetched.value.modes| >= 3
    decreases fuel
  {
    match fetched
    case Err(f) => Vm.Stop(s, Vm.Crashed(f))
    case Ok(instr) =>
      if instr.opcode == Vm.Halt then Vm.Stop(s, Vm.Halted)
      else if fuel == 0 then Vm.Stop(s, Vm.OutOfFuel)
      else match Perform(listing, s, instr)
        case Err(f) => Vm.Stop(s, Vm.Crashed(f))
        case Ok(next) =>
          if pause && instr.opcode == Vm.Print then Vm.Stop(next, Vm.Paused)
          else Continue(listing, pause, next, FetchFrom(listing, next.ip), fuel - 1)
  }

  /** One call of `execute()` with at most `fuel` instructions. */
  function Run(listing: seq<int>, pause: bool, s: Vm.State, fuel: nat): Vm.Stop
  {
    Continue(listing, pause, s, FetchFrom(s.memory, s.ip), fuel)
  }

  /** The `halted` property: it decodes the machine's own cell at `ip`. */
  function HaltedAt(s: Vm.State): (r: Result<bool, Vm.Fault>)
    ensures r.Ok? <==> FetchFrom(s.memory, s.ip).Ok?
    ensures r == Ok(true) <==> FetchFrom(s.memory, s.ip).Ok? && s.memory[s.ip] % 100 == 99
  {
    match FetchFrom(s.memory, s.ip)
    case Err(f) => Err(f)
    case Ok(instr) => Ok(instr.opcode == Vm.Halt)
  }

  // ---- What each instruction does ----

  /**
   * Where the listing and the machine's memory hold the same parameters, day7.py's
   * EQUALS is vm.py's; every other opcode is vm.py's whatever the listing holds.
   */
  lemma {:induction false} PerformAgreesWithVm(listing: seq<int>, s: Vm.State, instr: Vm.Instruction)
    requires instr.opcode != Vm.Halt && |instr.modes| >= 3
    requires instr.opcode == Vm.Equals ==>
      0 <= s.ip && s.ip + 4 <= |listing| && s.ip + 4 <= |s.memory| &&
      listing[s.ip + 1..s.ip + 4] == s.memory[s.ip + 1..s.ip + 4]
    ensures Perform(listing, s, instr) == Vm.Perform(s, instr.(modes := instr.modes[..3]))
  {
    if instr.opcode == Vm.Equals {
      var ip := s.ip;
      assert listing[ip + 1] == listing[ip + 1..ip + 4][0] == s.memory[ip + 1];
      assert listing[ip + 2] == listing[ip + 1..ip + 4][1] == s.memory[ip + 2];
      assert listing[ip + 3] == listing[ip + 1..ip + 4][2] == s.memory[ip + 3];
    }
  }

  /**
   * EQUALS stores exactly 0 or 1, into the cell the listing names, and the bit is
   * 1 exactly when the two operands are equal.
   */
  lemma {:induction false} EqualsStoresBit(listing: seq<int>, s: Vm.State, instr: Vm.Instruction)
    requires instr.opcode == Vm.Equals && |instr.modes| >= 3
    requires Perform(listing, s, instr).Ok?
    ensures var s' := Perform(listing, s, instr).value;
      var c := listing[s.ip + 3];
      var a := Vm.Operand(s.memory, listing[s.ip + 1], instr.modes[0]);
      var b := Vm.Operand(s.memory, listing[s.ip + 2], instr.modes[1]);
      a.Some? && b.Some? && Vm.InRange(s.memory, c) &&
      (s'.memory[c] == 0 || s'.memory[c] == 1) && (s'.memory[c] == 1 <==> a.value == b.value) &&
      (forall j :: 0 <= j < |s.memory| && j != c ==> s'.memory[j] == s.memory[j]) &&
      s'.ip == s.ip + 4 && s'.inputPointer == s.inputPointer
  {
  }

  /** LESS_THAN stores exactly 0 or 1 into its own memory, 1 exactly when a < b. */
  lemma {:induction false} LessThanStoresBit(listing: seq<int>, s: Vm.State, instr: Vm.Instruction)
    requires instr.opcode == Vm.LessThan && |instr.modes| >= 3
    requires Perform(listing, s, instr).Ok?
    ensures var s' := Perform(listing, s, instr).value;
      var c := s.memory[s.ip + 3];
      var a := Vm.Operand(s.memory, s.memory[s.ip + 1], instr.modes[0]).value;
      var b := Vm.Operand(s.memory, s.memory[s.ip + 2], instr.modes[1]).value;
      (s'.memory[c] == 0 || s'.memory[c] == 1) && (s'.memory[c] == 1 <==> a < b)
  {
    Vm.CompareStoresBit(s, instr.(modes := instr.modes[..3]));
  }

  /**
   * SAVE consumes `inputs[input_pointer]`: it stores it at `memory[ip+1]`, moves the
   * cursor by one and `ip` by two, and leaves the input list alone.
   */
  lemma {:induction false} SaveStep(listing: seq<int>, s: Vm.State, instr: Vm.Instruction)
    requires instr.opcode == Vm.Save && |instr.modes| >= 3
    requires Perform(listing, s, instr).Ok?
    ensures var s' := Perform(listing, s, instr).value;
      s.inputPointer < |s.inputs| &&
      s'.memory == s.memory[s.memory[s.ip + 1] := s.inputs[s.inputPointer]] &&
      s'.inputs == s.inputs && s'.inputPointer == s.inputPointer + 1 && s'.ip == s.ip + 2
  {
    Vm.SaveStep(s, instr.(modes := instr.modes[..3]));
  }

  // ---- What a call of execute() guarantees ----

  /**
   * Over a call, memory keeps its length, the input list is unchanged, the cursor
   * only moves forward and earlier output stays as a prefix.
   */
  lemma {:induction false} ContinueFrame(listing: seq<int>, pause: bool, s: Vm.State, fetched: Result<Vm.Instruction, Vm.Fault>, fuel: nat)
    requires fetched.Ok? ==> |fetched.value.modes| >= 3
    ensures var t := Continue(listing, pause, s, fetched, fuel).state;
      |t.memory| == |s.memory| && t.inputs == s.inputs && s.inputPointer <= t.inputPointer &&
      |s.output| <= |t.output| && t.output[..|s.output|] == s.output
    decreases fuel
  {
    match fetched
    case Err(_) =>
    case Ok(instr) =>
      if instr.opcode != Vm.Halt && fuel > 0 {
        match Perform(listing, s, instr)
        case Err(_) =>
        case Ok(next) =>
          if !(pause && instr.opcode == Vm.Print) {
            var rest := fuel - 1;
            ContinueStep(listing, pause, s, instr, next, fuel, rest);
            ContinueFrame(listing, pause, next, FetchFrom(listing, next.ip), rest);
            var t := Continue(listing, pause, next, FetchFrom(listing, next.ip), rest).state;
            assert t.output[..|s.output|] == t.output[..|next.output|][..|s.output|];
          }
      }
  }

  /**
   * A pause happens only with `pause` set, right after exactly one new output; a
   * halted return leaves `ip` on a cell that decodes to HALT, in the machine's
   * memory if no instruction ran and in the listing otherwise.
   */
  lemma {:induction false} ContinueStops(listing: seq<int>, pause: bool, s: Vm.State, fetched: Result<Vm.Instruction, Vm.Fault>, fuel: nat)
    requires fetched.Ok? ==> |fetched.value.modes| >= 3
    ensures var r := Continue(listing, pause, s, fetched, fuel); var t := r.state;
      (r.outcome == Vm.Paused ==> pause && |t.output| == |s.output| + 1) &&
      (r.outcome == Vm.Halted ==>
        (t == s && fetched.Ok? && fetched.value.opcode == Vm.Halt) ||
        (FetchFrom(listing, t.ip).Ok? && FetchFrom(listing, t.ip).value.opcode == Vm.Halt))
    decreases fuel
  {
    match fetched
    case Err(_) =>
    case Ok(instr) =>
      if instr.opcode != Vm.Halt && fuel > 0 {
        match Perform(listing, s, instr)
        case Err(_) =>
        case Ok(next) =>
          if !(pause && instr.opcode == Vm.Print) {
            var rest := fuel - 1;
            ContinueStep(listing, pause, s, instr, next, fuel, rest);
            ContinueStops(listing, pause, next, FetchFrom(listing, next.ip), rest);
          }
      }
  }

  /** A call goes on after an instruction that neither stops it nor pauses it. */
  lemma {:induction false} ContinueStep(listing: seq<int>, pause: bool, s: Vm.State, instr: Vm.Instruction, next: Vm.State, fuel: nat, rest: nat)
    requires instr.opcode != Vm.Halt && |instr.modes| >= 3 && fuel == rest + 1
    requires Perform(listing, s, instr) == Ok(next) && !(pause && instr.opcode == Vm.Print)
    ensures Continue(listing, pause, s, Ok(instr), fuel) == Continue(listing, pause, next, FetchFrom(listing, next.ip), rest)
  {
    var fetched: Result<Vm.Instruction, Vm.Fault> := Ok(instr);
    assert fetched.value == instr && fuel != 0 && fuel - 1 == rest;
  }

  lemma {:induction false} RunProperties(listing: seq<int>, pause: bool, s: Vm.State, fuel: nat)
    ensures var r := Run(listing, pause, s, fuel); var t := r.state;
      |t.memory| == |s.memory| && t.inputs == s.inputs && s.inputPointer <= t.inputPointer &&
      |s.output| <= |t.output| && t.output[..|s.output|] == s.output &&
      (r.outcome == Vm.Paused ==> pause && |t.output| == |s.output| + 1) &&
      (r.outcome == Vm.Halted ==>
        HaltedAt(t) == Ok(true) || (FetchFrom(listing, t.ip).Ok? && FetchFrom(listing, t.ip).value.opcode == Vm.Halt))
  {
    ContinueFrame(listing, pause, s, FetchFrom(s.memory, s.ip), fuel);
    ContinueStops(listing, pause, s, FetchFrom(s.memory, s.ip), fuel);
  }

  /**
   * Writes to the machine's own memory do not change what is fetched next: a
   * program that overwrites its next instruction with HALT halts silently in
   * vm.py, while day7.py runs the PRINT the listing still holds there.
   */
  lemma SelfModifyingExample()
    ensures var listing := [1101, 99, 0, 4, 4, 0, 99];
      Vm.Run(false, Vm.State(listing, [], 0, 0, []), 5) == Vm.Stop(Vm.State(listing[4 := 99], [], 4, 0, []), Vm.Halted) &&
      Run(listing, false, Vm.State(listing, [], 0, 0, []), 5) == Vm.Stop(Vm.State(listing[4 := 99], [], 6, 0, [1101]), Vm.Halted)
  {
    SelfModifyingInVm();
    SelfModifyingInDay7();
  }

  /** vm.py fetches from its own memory: the overwritten cell 4 reads HALT. */
  lemma SelfModifyingInVm()
    ensures var listing := [1101, 99, 0, 4, 4, 0, 99];
      Vm.Run(false, Vm.State(listing, [], 0, 0, []), 5) == Vm.Stop(Vm.State(listing[4 := 99], [], 4, 0, []), Vm.Halted)
  {
    var listing := [1101, 99, 0, 4, 4, 0, 99];
    var s0 := Vm.State(listing, [], 0, 0, []);
    var s1 := s0.(memory := listing[4 := 99], ip := 4);
    assert Vm.Fetch(s0).value.modes == [1, 1, 0];
    assert Vm.Perform(s0, Vm.Fetch(s0).value) == Ok(s1);
    assert Vm.Run(false, s0, 5) == Vm.Run(false, s1, 4);
    assert s1.memory[4] == 99;
    assert Vm.Run(false, s1, 4) == Vm.Stop(s1, Vm.Halted);
  }

  /** day7.py fetches every later instruction from the listing: cell 4 still reads PRINT. */
  lemma SelfModifyingInDay7()
    ensures var listing := [1101, 99, 0, 4, 4, 0, 99];
      Run(listing, false, Vm.State(listing, [], 0, 0, []), 5) == Vm.Stop(Vm.State(listing[4 := 99], [], 6, 0, [1101]), Vm.Halted)
  {
    var listing := [1101, 99, 0, 4, 4, 0, 99];
    var s0 := Vm.State(listing, [], 0, 0, []);
    var s1 := s0.(memory := listing[4 := 99], ip := 4);
    var s2 := s1.(ip := 6, output := [1101]);
    var add := Vm.Instruction(1101, Vm.Add, [1, 1, 0]);
    var out := Vm.Instruction(4, Vm.Print, [0, 0, 0]);
    DecodeExamples();
    assert listing[0] == 1101 && listing[4] == 4 && listing[6] == 99;
    assert FetchFrom(listing, 0) == Ok(add);
    assert FetchFrom(listing, 4) == Ok(out);
    SelfModifyingAdd();
    SelfModifyingPrint();
    ContinueStep(listing, false, s0, add, s1, 5, 4);
    ContinueStep(listing, false, s1, out, s2, 4, 3);
    assert FetchFrom(listing, 6).value.opcode == Vm.Halt;
    assert Continue(listing, false, s2, FetchFrom(listing, 6), 3) == Vm.Stop(s2, Vm.Halted);
  }

  /** The first instruction of SelfModifyingExample writes HALT over cell 4. */
  lemma SelfModifyingAdd()
    ensures var listing := [1101, 99, 0, 4, 4, 0, 99];
      Perform(listing, Vm.State(listing, [], 0, 0, []), Vm.Instruction(1101, Vm.Add, [1, 1, 0])) ==
        Ok(Vm.State(listing[4 := 99], [], 4, 0, []))
  {
    var listing := [1101, 99, 0, 4, 4, 0, 99];
    var s0 := Vm.State(listing, [], 0, 0, []);
    var add := Vm.Instruction(1101, Vm.Add, [1, 1, 0]);
    assert add.(modes := add.modes[..3]) == add;
    assert Vm.Operand(listing, listing[1], 1) == Some(99) && Vm.Operand(listing, listing[2], 1) == Some(0);
    assert listing[3] == 4 && Vm.Combine(Vm.Add, 99, 0) == 99;
    assert Vm.Perform(s0, add) == Ok(s0.(memory := listing[4 := 99], ip := 4));
  }

  /** The second instruction prints cell 0 of the machine's memory. */
  lemma SelfModifyingPrint()
    ensures var listing := [1101, 99, 0, 4, 4, 0, 99];
      Perform(listing, Vm.State(listing[4 := 99], [], 4, 0, []), Vm.Instruction(4, Vm.Print, [0, 0, 0])) ==
        Ok(Vm.State(listing[4 := 99], [], 6, 0, [1101]))
  {
    var listing := [1101, 99, 0, 4, 4, 0, 99];
    var s1 := Vm.State(listing[4 := 99], [], 4, 0, []);
    var out := Vm.Instruction(4, Vm.Print, [0, 0, 0]);
    assert out.(modes := out.modes[..3]) == out;
    assert s1.memory[5] == 0 && s1.memory[0] == 1101;
    assert Vm.Operand(s1.memory, s1.memory[5], 0) == Some(1101);
    assert Vm.Perform(s1, out) == Ok(s1.(ip := 6, output := [1101]));
  }

  /** The string decoder on the three cells of SelfModifyingExample. */
  lemma DecodeExamples()
    ensures Day5.Decode(1101) == Some(Vm.Instruction(1101, Vm.Add, [1, 1, 0]))
    ensures Day5.Decode(4) == Some(Vm.Instruction(4, Vm.Print, [0, 0, 0]))
    ensures Day5.Decode(99) == Some(Vm.Instruction(99, Vm.Halt, [0, 0, 0]))
  {
    DecodeAdd();
    DecodeShort(4);
    DecodeShort(99);
  }

  lemma DecodeAdd()
    ensures Day5.Decode(1101) == Some(Vm.Instruction(1101, Vm.Add, [1, 1, 0]))
  {
    ModeStringAdd();
    assert Decimal.DigitValue('1') == 1 && Decimal.DigitValue('0') == 0;
    assert Decimal.AllDigits("011");
    var d := Day5.ModeDigits("011").value;
    assert d[0] == 1 && d[1] == 1 && d[2] == 0;
    assert d == [1, 1, 0];
  }

  lemma ModeStringAdd()
    ensures Day5.ModeString(1101) == "011"
  {
    assert Decimal.NatStr(11) == "11" by {
      assert Decimal.NatStr(11) == Decimal.NatStr(1) + [Decimal.DigitChar(1)];
    }
    assert Decimal.NatStr(110) == "110" by {
      assert Decimal.NatStr(110) == Decimal.NatStr(11) + [Decimal.DigitChar(0)];
    }
    assert Decimal.NatStr(1101) == "1101" by {
      assert Decimal.NatStr(1101) == Decimal.NatStr(110) + [Decimal.DigitChar(1)];
    }
    var text := Decimal.IntStr(1101);
    assert text == "1101";
    assert text[..2] == "11";
    assert Day5.Zeros(1) == "0";
  }

  /** A non-negative instruction below 100 has no mode characters: all modes are 0. */
  lemma {:induction false} DecodeShort(n: nat)
    requires n < 100 && Vm.OpcodeOf(n).Some?
    ensures Day5.Decode(n) == Some(Vm.Instruction(n, Vm.OpcodeOf(n).value, [0, 0, 0]))
  {
    assert |Decimal.NatStr(n)| <= 2 by {
      if n >= 10 {
        assert Decimal.NatStr(n) == Decimal.NatStr(n / 10) + [Decimal.DigitChar(n % 10)];
      }
    }
    assert Day5.ModeString(n) == "000";
    assert Decimal.DigitValue('0') == 0;
    assert Decimal.AllDigits("000");
    var d := Day5.ModeDigits("000").value;
    assert d[0] == 0 && d[1] == 0 && d[2] == 0;
    assert d == [0, 0, 0];
    assert Day5.ModeDigits(Day5.ModeString(n)) == Some([0, 0, 0]);
    assert n % 100 == n;
  }

  /** day7.py's `Machine`, with the state of Vm.State held in fields. */
  class Machine {
    var program: seq<int>
    var inputs: seq<int>
    var ip: int
    var inputPointer: nat
    var output: seq<int>
    var pauseOnOutput: bool

    constructor (program: seq<int>, inputs: seq<int>, pauseOnOutput: bool)
      ensures Snapshot() == Vm.State(program, inputs, 0, 0, []) && this.pauseOnOutput == pauseOnOutput
    {
      this.program := program;
      this.inputs := inputs;
      this.ip := 0;
      this.inputPointer := 0;
      this.output := [];
      this.pauseOnOutput := pauseOnOutput;
    }

    function Snapshot(): Vm.State
      reads this
    {
      Vm.State(program, inputs, ip, inputPointer, output)
    }

    /** The `halted` property, on the machine's own memory. */
    function IsHalted(): (r: Result<bool, Vm.Fault>)
      reads this
      ensures r == Ok(true) <==> 0 <= ip < |program| && Day5.Decode(program[ip]).Some? && program[ip] % 100 == 99
    {
      HaltedAt(Snapshot())
    }

    /** `inputs.append(x)`, as the feedback loop does between calls. */
    method PushInput(x: int)
      modifies this
      ensures Snapshot() == old(Snapshot()).(inputs := old(inputs) + [x])
      ensures pauseOnOutput == old(pauseOnOutput)
    {
      inputs := inputs + [x];
    }

    /**
     * `execute()`, running at most `fuel` instructions: the new state and the reason
     * for stopping are exactly what Run computes from the old state.
     */
    method Execute(listing: seq<int>, fuel: nat) returns (outcome: Vm.Outcome)
      modifies this
      ensures Vm.Stop(Snapshot(), outcome) == Run(listing, old(pauseOnOutput), old(Snapshot()), fuel)
      ensures pauseOnOutput == old(pauseOnOutput)
    {
      var fetched := FetchFrom(program, ip);
      var steps := fuel;
      while true
        invariant fetched.Ok? ==> |fetched.value.modes| >= 3
        invariant Continue(listing, pauseOnOutput, Snapshot(), fetched, steps) == Run(listing, old(pauseOnOutput), old(Snapshot()), fuel)
        invariant pauseOnOutput == old(pauseOnOutput)
        decreases steps
      {
        if fetched.Err? {
          return Vm.Crashed(fetched.error);
        }
        var instruction := fetched.value;
        if instruction.opcode == Vm.Halt {
          return Vm.Halted;
        }
        if steps == 0 {
          return Vm.OutOfFuel;
        }
        ghost var before, fuelBefore := Snapshot(), steps;
        var fault := ExecuteInstruction(listing, instruction);
        if fault.Some? {
          return Vm.Crashed(fault.value);
        }
        if instruction.opcode == Vm.Print && pauseOnOutput {
          return Vm.Paused;
        }
        fetched := FetchFrom(listing, ip);
        steps := steps - 1;
        ContinueStep(listing, pauseOnOutput, before, instruction, Snapshot(), fuelBefore, steps);
      }
    }

    /** The body of the `while` loop of `execute()` for one decoded non-HALT instruction. */
    method ExecuteInstruction(listing: seq<int>, instruction: Vm.Instruction) returns (fault: Option<Vm.Fault>)
      requires instruction.opcode != Vm.Halt && |instruction.modes| >= 3
      modifies this
      ensures fault.None? ==> Perform(listing, old(Snapshot()), instruction) == Ok(Snapshot())
      ensures fault.Some? ==> Perform(listing, old(Snapshot()), instruction) == Err(fault.value) && Snapshot() == old(Snapshot())
      ensures pauseOnOutput == old(pauseOnOutput)
    {
      var bound := if instruction.opcode == Vm.Equals then |listing| else |program|;
      if !(0 <= ip && ip + Vm.Width(instruction.opcode) <= bound) {
        return Some(Vm.AddressOutOfRange);
      }
      match instruction.opcode {
        case Equals =>
          var a := Vm.Operand(program, listing[ip + 1], instruction.modes[0]);
          var b := Vm.Operand(program, listing[ip + 2], instruction.modes[1]);
          var c := listing[ip + 3];
          if a.None? || b.None? || !Vm.InRange(program, c) {
            return Some(Vm.AddressOutOfRange);
          }
          program := program[c := if a.value == b.value then 1 else 0];
          ip := ip + 4;
        case Add | Multiply | LessThan =>
          var a := Vm.Operand(program, program[ip + 1], instruction.modes[0]);
          var b := Vm.Operand(program, program[ip + 2], instruction.modes[1]);
          var c := program[ip + 3];
          if a.None? || b.None? || !Vm.InRange(program, c) {
            return Some(Vm.AddressOutOfRange);
          }
          program := program[c := Vm.Combine(instruction.opcode, a.value, b.value)];
          ip := ip + 4;
        case Save =>
          var a := program[ip + 1];
          if inputPointer >= |inputs| {
            return Some(Vm.InputExhausted);
          }
          if !Vm.InRange(program, a) {
            return Some(Vm.AddressOutOfRange);
          }
          program := program[a := inputs[inputPointer]];
          inputPointer := inputPointer + 1;
          ip := ip + 2;
        case Print =>
          var a := Vm.Operand(program, program[ip + 1], instruction.modes[0]);
          if a.None? {
            return Some(Vm.AddressOutOfRange);
          }
          output := output + [a.value];
          ip := ip + 2;
        case JumpIfTrue | JumpIfFalse =>
          var a := Vm.Operand(program, program[ip + 1], instruction.modes[0]);
          var b := Vm.Operand(program, program[ip + 2], instruction.modes[1]);
          if a.None? || b.None? {
            return Some(Vm.AddressOutOfRange);
          }
          var jump := (a.value != 0) == (instruction.opcode == Vm.JumpIfTrue);
          ip := if jump then b.value else ip + 3;
      }
      return None;
    }
  }

  // ---- The amplifier circuits of the main block ----

  /**
   * Part one: the amplifiers run one after another, each on a fresh copy of the
   * listing with the inputs `[setting, signal]`, and each passes on its first
   * output. None stands for the run failing: an amplifier that crashes or prints
   * nothing (the IndexError of `output[0]`), or that does not halt within `fuel`.
   */
  function ChainSignal(listing: seq<int>, settings: seq<int>, signal: int, fuel: nat): Option<int>
    decreases |settings|
  {
    if settings == [] then Some(signal)
    else
      var r := Run(listing, false, Vm.State(listing, [settings[0], signal], 0, 0, []), fuel);
      if r.outcome != Vm.Halted || r.state.output == [] then None
      else ChainSignal(listing, settings[1..], r.state.output[0], fuel)
  }

  /** A chain split in two is the first part feeding its signal into the second. */
  lemma {:induction false} ChainAppend(listing: seq<int>, first: seq<int>, second: seq<int>, signal: int, fuel: nat)
    ensures ChainSignal(listing, first + second, signal, fuel) ==
      match ChainSignal(listing, first, signal, fuel)
      case None => None
      case Some(middle) => ChainSignal(listing, second, middle, fuel)
    decreases |first|
  {
    if first != [] {
      assert (first + second)[0] == first[0];
      assert (first + second)[1..] == first[1..] + second;
      var r := Run(listing, false, Vm.State(listing, [first[0], signal], 0, 0, []), fuel);
      if !(r.outcome != Vm.Halted || r.state.output == []) {
        ChainAppend(listing, first[1..], second, r.state.output[0], fuel);
      }
    } else {
      assert first + second == second;
    }
  }

  /** The inner loop of part one for one phase-setting sequence, starting from signal 0. */
  method AmplifierChain(listing: seq<int>, settings: seq<int>, fuel: nat) returns (signal: Option<int>)
    ensures signal == ChainSignal(listing, settings, 0, fuel)
  {
    var amplifierInput := 0;
    for i := 0 to |settings|
      invariant ChainSignal(listing, settings[i..], amplifierInput, fuel) == ChainSignal(listing, settings, 0, fuel)
    {
      assert settings[i..][0] == settings[i] && settings[i..][1..] == settings[i + 1..];
      var amplifier := new Machine(listing, [settings[i], amplifierInput], false);
      var outcome := amplifier.Execute(listing, fuel);
      if outcome != Vm.Halted || amplifier.output == [] {
        return None;
      }
      amplifierInput := amplifier.output[0];
    }
    assert settings[|settings|..] == [];
    return Some(amplifierInput);
  }

  /**
   * The part-one loop over the given phase-setting sequences, collecting
   * `thruster_signals` in order; None as soon as one chain fails.
   */
  method ThrusterSignals(listing: seq<int>, sequences: seq<seq<int>>, fuel: nat) returns (signals: Option<seq<int>>)
    ensures signals.Some? ==> |signals.value| == |sequences|
    ensures signals.Some? ==> forall k :: 0 <= k < |sequences| ==> ChainSignal(listing, sequences[k], 0, fuel) == Some(signals.value[k])
    ensures signals.None? ==> exists k :: 0 <= k < |sequences| && ChainSignal(listing, sequences[k], 0, fuel).None?
  {
    var collected: seq<int> := [];
    for i := 0 to |sequences|
      invariant |collected| == i
      invariant forall k :: 0 <= k < i ==> ChainSignal(listing, sequences[k], 0, fuel) == Some(collected[k])
    {
      var signal := AmplifierChain(listing, sequences[i], fuel);
      if signal.None? {
        assert ChainSignal(listing, sequences[i], 0, fuel).None?;
        return None;
      }
      collected := collected + [signal.value];
      assert collected[i] == signal.value;
    }
    return Some(collected);
  }

  /** Python's `max` of a non-empty list: an element that no element exceeds. */
  function Max(s: seq<int>): (m: int)
    requires |s| > 0
    ensures m in s && forall x :: x in s ==> x <= m
  {
    if |s| == 1 then s[0]
    else
      var rest := Max(s[1..]);
      assert forall x :: x in s ==> x == s[0] || x in s[1..];
      if s[0] > rest then s[0] else rest
  }

  /**
   * `max(thruster_signals)`: the largest signal, produced by some sequence and
   * exceeded by none; None when there is no sequence (max of an empty list
   * raises) or some chain fails.
   */
  method MaxThrusterSignal(listing: seq<int>, sequences: seq<seq<int>>, fuel: nat) returns (best: Option<int>)
    ensures best.Some? ==>
      (exists k :: 0 <= k < |sequences| && ChainSignal(listing, sequences[k], 0, fuel) == best) &&
      forall k :: 0 <= k < |sequences| ==>
        ChainSignal(listing, sequences[k], 0, fuel).Some? && ChainSignal(listing, sequences[k], 0, fuel).value <= best.value
    ensures best.None? ==> |sequences| == 0 || exists k :: 0 <= k < |sequences| && ChainSignal(listing, sequences[k], 0, fuel).None?
  {
    var signals := ThrusterSignals(listing, sequences, fuel);
    if signals.None? || |sequences| == 0 {
      return None;
    }
    var top := Max(signals.value);
    var k :| 0 <= k < |sequences| && signals.value[k] == top;
    assert ChainSignal(listing, sequences[k], 0, fuel) == Some(top);
    forall j | 0 <= j < |sequences|
      ensures ChainSignal(listing, sequences[j], 0, fuel).Some? && ChainSignal(listing, sequences[j], 0, fuel).value <= top
    {
      assert signals.value[j] in signals.value;
    }
    return Some(top);
  }

  /** The amplifier that feeds amplifier `i` in a loop of `n`. */
  function Sender(i: nat, n: nat): nat
    requires i < n
  {
    if i == 0 then n - 1 else i - 1
  }

  function Last(s: seq<int>): int
    requires |s| > 0
  {
    s[|s| - 1]
  }

  /**
   * The `for` loop of part two from amplifier `k` on: each amplifier runs until it
   * pauses or halts, and its latest output is appended to the inputs of the next
   * one, the last feeding the first. None when an amplifier crashes, has never
   * printed (the IndexError of `output[-1]`) or does not stop within `fuel`.
   */
  function FeedbackPass(listing: seq<int>, amps: seq<Vm.State>, k: nat, fuel: nat): (r: Option<seq<Vm.State>>)
    requires k <= |amps|
    ensures r.Some? ==> |r.value| == |amps|
    decreases |amps| - k
  {
    if k == |amps| then Some(amps)
    else
      var run := Run(listing, true, amps[k], fuel);
      if !Passes(run) then None
      else FeedbackPass(listing, Feed(amps, k, run.state), k + 1, fuel)
  }

  /**
   * Amplifier `k` replaced by its state after running, then `output[-1]` appended
   * to the inputs of amplifier `(k + 1) % n`.
   */
  function Feed(amps: seq<Vm.State>, k: nat, ran: Vm.State): (r: seq<Vm.State>)
    requires k < |amps| && |ran.output| > 0
    ensures |r| == |amps|
    ensures forall i :: 0 <= i < |amps| ==>
      r[i].output == (if i == k then ran.output else amps[i].output) &&
      r[i].inputs == (if i == k then ran.inputs else amps[i].inputs) + (if i == (k + 1) % |amps| then [Last(ran.output)] else [])
  {
    var next := (k + 1) % |amps|;
    var updated := amps[k := ran];
    updated[next := updated[next].(inputs := updated[next].inputs + [Last(ran.output)])]
  }

  /** How one test of the `while` condition of part two ends. */
  datatype Round = Done(signal: Option<int>) | Next(after: seq<Vm.State>)

  /**
   * One test of `while not amps[-1].halted` and, when the loop goes on and `more`
   * passes are allowed, the pass that follows; once the last amplifier's cell at
   * `ip` is HALT the result is its latest output.
   */
  function FeedbackStep(listing: seq<int>, amps: seq<Vm.State>, more: bool, fuel: nat): (r: Round)
    requires |amps| > 0
    ensures r.Next? ==> more && |r.after| == |amps| && FeedbackPass(listing, amps, 0, fuel) == Some(r.after)
  {
    var last := amps[|amps| - 1];
    match HaltedAt(last)
    case Err(_) => Done(None)
    case Ok(true) => Done(if last.output == [] then None else Some(Last(last.output)))
    case Ok(false) =>
      if !more then Done(None)
      else match FeedbackPass(listing, amps, 0, fuel)
        case None => Done(None)
        case Some(after) => Next(after)
  }

  /** The `while not amps[-1].halted` loop with at most `rounds` passes. */
  function Feedback(listing: seq<int>, amps: seq<Vm.State>, rounds: nat, fuel: nat): Option<int>
    requires |amps| > 0
    decreases rounds
  {
    match FeedbackStep(listing, amps, rounds > 0, fuel)
    case Done(signal) => signal
    case Next(after) => Feedback(listing, after, rounds - 1, fuel)
  }

  /** The loop ends where FeedbackStep says it does. */
  lemma {:induction false} FeedbackDone(listing: seq<int>, amps: seq<Vm.State>, rounds: nat, fuel: nat)
    requires |amps| > 0 && FeedbackStep(listing, amps, rounds > 0, fuel).Done?
    ensures Feedback(listing, amps, rounds, fuel) == FeedbackStep(listing, amps, rounds > 0, fuel).signal
  {
  }

  /** A pass that goes through leaves one round less to go. */
  lemma {:induction false} FeedbackNext(listing: seq<int>, amps: seq<Vm.State>, after: seq<Vm.State>, rounds: nat, rest: nat, fuel: nat)
    requires |amps| > 0 && rounds == rest + 1 && FeedbackStep(listing, amps, true, fuel) == Next(after)
    ensures Feedback(listing, amps, rounds, fuel) == Feedback(listing, after, rest, fuel)
  {
  }

  /** One pausing amplifier per setting, on a copy of the listing; the first also gets signal 0. */
  function InitialAmps(listing: seq<int>, settings: seq<int>): (amps: seq<Vm.State>)
    ensures |amps| == |settings|
  {
    seq(|settings|, i requires 0 <= i < |settings| => Vm.State(listing, if i == 0 then [settings[i], 0] else [settings[i]], 0, 0, []))
  }

  /** Part two for one phase-setting sequence; an empty one fails at `amps[0]`. */
  function FeedbackSignal(listing: seq<int>, settings: seq<int>, rounds: nat, fuel: nat): Option<int>
  {
    if settings == [] then None else Feedback(listing, InitialAmps(listing, settings), rounds, fuel)
  }

  /**
   * Over a pass from amplifier `k`, every amplifier is Wired, and amplifiers
   * before `k` keep their output.
   */
  lemma {:induction false} FeedbackPassWiring(listing: seq<int>, amps: seq<Vm.State>, k: nat, fuel: nat)
    requires k <= |amps|
    requires FeedbackPass(listing, amps, k, fuel).Some?
    ensures var a := FeedbackPass(listing, amps, k, fuel).value;
      (forall i :: 0 <= i < k ==> a[i].output == amps[i].output) &&
      forall i :: 0 <= i < |amps| ==> Wired(amps, a, k, i)
    decreases |amps| - k
  {
    if k < |amps| {
      var n := |amps|;
      var run := Run(listing, true, amps[k], fuel);
      RunProperties(listing, true, amps[k], fuel);
      var fed := Feed(amps, k, run.state);
      NextIndex(k, n);
      FeedbackPassWiring(listing, fed, k + 1, fuel);
      var a := FeedbackPass(listing, fed, k + 1, fuel).value;
      assert a == FeedbackPass(listing, amps, k, fuel).value;
      forall i | 0 <= i < n
        ensures Wired(amps, a, k, i)
      {
        WiredStep(amps, run.state, a, k, i);
      }
    }
  }

  /** One step of FeedbackPassWiring: from the pass after Feed back to the pass from `k`. */
  lemma {:induction false} WiredStep(amps: seq<Vm.State>, ran: Vm.State, a: seq<Vm.State>, k: nat, i: nat)
    requires k < |amps| && i < |amps| && |a| == |amps| && |ran.output| > 0 && ran.inputs == amps[k].inputs
    requires Wired(Feed(amps, k, ran), a, k + 1, i)
    requires a[k].output == ran.output
    ensures Wired(amps, a, k, i)
  {
    var fed := Feed(amps, k, ran);
    NextIndex(k, |amps|);
    assert fed[i].inputs == amps[i].inputs + (if i == (k + 1) % |amps| then [Last(ran.output)] else []);
    assert a[i].inputs[..|amps[i].inputs|] == a[i].inputs[..|fed[i].inputs|][..|amps[i].inputs|];
  }

  /** `(k + 1) % n` wraps around only after the last amplifier. */
  lemma {:induction false} NextIndex(k: nat, n: nat)
    requires k < n
    ensures (k + 1) % n == if k + 1 < n then k + 1 else 0
    ensures Sender((k + 1) % n, n) == k
  {
  }

  /**
   * The wiring of one amplifier over a pass from amplifier `k`: it receives one
   * new input exactly when its sender runs in the pass, its earlier inputs stay
   * as a prefix, and the new input is the sender's latest output.
   */
  ghost predicate Wired(before: seq<Vm.State>, after: seq<Vm.State>, k: nat, i: nat)
    requires |after| == |before| && i < |before|
  {
    var j := Sender(i, |before|);
    |after[i].inputs| == |before[i].inputs| + (if j >= k then 1 else 0) &&
    after[i].inputs[..|before[i].inputs|] == before[i].inputs &&
    (j >= k ==> |after[j].output| > 0 && Last(after[i].inputs) == Last(after[j].output))
  }

  /** The loop in `InitialAmps` order: the seq of states the machines hold. */
  ghost function States(amps: seq<Machine>): (r: seq<Vm.State>)
    reads amps
    ensures |r| == |amps| && forall i :: 0 <= i < |amps| ==> r[i] == amps[i].Snapshot()
  {
    if amps == [] then [] else States(amps[..|amps| - 1]) + [amps[|amps| - 1].Snapshot()]
  }

  /** Distinct machines, all pausing on output. */
  ghost predicate Amplifiers(amps: seq<Machine>)
    reads amps
  {
    Distinct(amps) && forall j :: 0 <= j < |amps| ==> amps[j].pauseOnOutput
  }

  predicate Distinct(amps: seq<Machine>)
  {
    forall j, l :: 0 <= j < l < |amps| ==> amps[j] != amps[l]
  }

  /** The list comprehension creating the amplifiers, then `amps[0].inputs.append(0)`. */
  method CreateAmplifiers(listing: seq<int>, settings: seq<int>) returns (amps: seq<Machine>)
    requires |settings| > 0
    ensures Amplifiers(amps) && forall j :: 0 <= j < |amps| ==> fresh(amps[j])
    ensures States(amps) == InitialAmps(listing, settings)
  {
    var n := |settings|;
    amps := [];
    for i := 0 to n
      invariant |amps| == i
      invariant Amplifiers(amps) && forall j :: 0 <= j < i ==> fresh(amps[j])
      invariant forall j :: 0 <= j < i ==> amps[j].Snapshot() == Vm.State(listing, [settings[j]], 0, 0, [])
    {
      var amp := new Machine(listing, [settings[i]], true);
      amps := amps + [amp];
    }
    amps[0].PushInput(0);
    forall j | 0 <= j < n
      ensures States(amps)[j] == InitialAmps(listing, settings)[j]
    {
      assert j != 0 ==> amps[j] != amps[0];
    }
  }

  /** Whether the run of one amplifier in a pass lets the pass go on. */
  predicate Passes(run: Vm.Stop)
  {
    !(run.outcome.Crashed? || run.outcome == Vm.OutOfFuel || run.state.output == [])
  }

  /**
   * One iteration of the `for` loop of part two: amplifier `k` runs, and on
   * success its latest output goes to the next amplifier (Feed).
   */
  method StepAmplifier(listing: seq<int>, amps: seq<Machine>, k: nat, fuel: nat) returns (ok: bool)
    requires Amplifiers(amps) && k < |amps|
    modifies amps[k], amps[(k + 1) % |amps|]
    ensures Amplifiers(amps)
    ensures var run := Run(listing, true, old(States(amps))[k], fuel);
      ok == Passes(run) && (ok ==> States(amps) == Feed(old(States(amps)), k, run.state))
  {
    ghost var before := States(amps);
    var n := |amps|;
    var amp := amps[k];
    var outcome := amp.Execute(listing, fuel);
    ghost var ran := amp.Snapshot();
    forall j | 0 <= j < n
      ensures States(amps)[j] == before[k := ran][j]
    {
      assert j != k ==> amps[j] != amp;
    }
    if outcome.Crashed? || outcome == Vm.OutOfFuel || amp.output == [] {
      return false;
    }
    var outputSignal := Last(amp.output);
    Deliver(amps, (k + 1) % n, outputSignal);
    return true;
  }

  /** `amps[(amp_no + 1) % len(amps)].inputs.append(output_signal)`: one machine gets one more input. */
  method Deliver(amps: seq<Machine>, next: nat, x: int)
    requires Amplifiers(amps) && next < |amps|
    modifies amps[next]
    ensures Amplifiers(amps)
    ensures States(amps) == old(States(amps))[next := old(States(amps))[next].(inputs := old(States(amps))[next].inputs + [x])]
  {
    ghost var before := States(amps);
    var receiver := amps[next];
    receiver.PushInput(x);
    forall j | 0 <= j < |amps|
      ensures States(amps)[j] == before[next := before[next].(inputs := before[next].inputs + [x])][j]
    {
      assert j != next ==> amps[j] != receiver;
    }
  }

  /**
   * One pass of the `for` loop of part two over the machines: the new states are
   * what FeedbackPass computes, and false means it fails.
   */
  method RunPass(listing: seq<int>, amps: seq<Machine>, fuel: nat) returns (ok: bool)
    requires Amplifiers(amps) && |amps| > 0
    modifies amps
    ensures Amplifiers(amps)
    ensures ok ==> FeedbackPass(listing, old(States(amps)), 0, fuel) == Some(States(amps))
    ensures !ok ==> FeedbackPass(listing, old(States(amps)), 0, fuel) == None
  {
    for k := 0 to |amps|
      invariant Amplifiers(amps)
      invariant FeedbackPass(listing, States(amps), k, fuel) == FeedbackPass(listing, old(States(amps)), 0, fuel)
    {
      ok := StepPass(listing, amps, k, fuel);
      if !ok {
        return false;
      }
    }
    return true;
  }

  /** Machine `k`'s turn in the pass, stated in terms of FeedbackPass. */
  method StepPass(listing: seq<int>, amps: seq<Machine>, k: nat, fuel: nat) returns (ok: bool)
    requires Amplifiers(amps) && k < |amps|
    modifies amps
    ensures Amplifiers(amps)
    ensures ok ==> FeedbackPass(listing, States(amps), k + 1, fuel) == FeedbackPass(listing, old(States(amps)), k, fuel)
    ensures !ok ==> FeedbackPass(listing, old(States(amps)), k, fuel) == None
  {
    ghost var current := States(amps);
    ok := StepAmplifier(listing, amps, k, fuel);
    PassStep(listing, current, k, fuel);
  }

  /** FeedbackPass from machine `k` fails when its run does not pass, and otherwise goes on from the fed states. */
  lemma {:induction false} PassStep(listing: seq<int>, amps: seq<Vm.State>, k: nat, fuel: nat)
    requires k < |amps|
    ensures var run := Run(listing, true, amps[k], fuel);
      FeedbackPass(listing, amps, k, fuel) == if Passes(run) then FeedbackPass(listing, Feed(amps, k, run.state), k + 1, fuel) else None
  {
  }

  /**
   * One iteration of the `while not amps[-1].halted` loop, or the exit from it:
   * `done` when Feedback stops here with `signal`, otherwise one pass has run and
   * Feedback goes on from the new states with one round less.
   */
  method FeedbackRound(listing: seq<int>, amps: seq<Machine>, ghost current: seq<Vm.State>, round: nat, fuel: nat) returns (done: bool, signal: Option<int>, left: nat)
    requires Amplifiers(amps) && |amps| > 0 && current == States(amps)
    modifies amps
    ensures Amplifiers(amps)
    ensures done ==> signal == Feedback(listing, current, round, fuel)
    ensures !done ==> left == round - 1 && Feedback(listing, current, round, fuel) == Feedback(listing, States(amps), left, fuel)
  {
    var last := amps[|amps| - 1];
    var halted := last.IsHalted();
    assert halted == HaltedAt(current[|amps| - 1]);
    if halted.Err? || halted.value || round == 0 {
      FeedbackDone(listing, current, round, fuel);
      if halted.Err? || (round == 0 && !halted.value) {
        return true, None, round;
      }
      if last.output == [] {
        return true, None, round;
      }
      return true, Some(Last(last.output)), round;
    }
    var ok;
    ok, left := AdvanceRound(listing, amps, current, round, fuel);
    return !ok, None, left;
  }

  /**
   * The body of the `while` loop of part two: one pass over the machines, after
   * which Feedback goes on with one round less, or fails.
   */
  method AdvanceRound(listing: seq<int>, amps: seq<Machine>, ghost current: seq<Vm.State>, round: nat, fuel: nat) returns (ok: bool, left: nat)
    requires Amplifiers(amps) && |amps| > 0 && current == States(amps)
    requires HaltedAt(current[|amps| - 1]) == Ok(false) && round > 0
    modifies amps
    ensures Amplifiers(amps)
    ensures !ok ==> Feedback(listing, current, round, fuel) == None
    ensures left == round - 1
    ensures ok ==> Feedback(listing, current, round, fuel) == Feedback(listing, States(amps), left, fuel)
  {
    ok := RunPass(listing, amps, fuel);
    left := round - 1;
    if ok {
      FeedbackNext(listing, current, States(amps), round, left, fuel);
    } else {
      FeedbackDone(listing, current, round, fuel);
    }
  }

  /**
   * Part two for one phase-setting sequence: passes run until the last machine's
   * cell at `ip` is HALT (at most `rounds` passes); the result is what
   * FeedbackSignal computes.
   */
  method FeedbackLoop(listing: seq<int>, settings: seq<int>, rounds: nat, fuel: nat) returns (signal: Option<int>)
    ensures signal == FeedbackSignal(listing, settings, rounds, fuel)
  {
    if |settings| == 0 {
      return None;
    }
    var amps := CreateAmplifiers(listing, settings);
    ghost var goal := Feedback(listing, States(amps), rounds, fuel);
    var round := rounds;
    while true
      invariant Amplifiers(amps) && |amps| == |settings|
      invariant forall j :: 0 <= j < |amps| ==> fresh(amps[j])
      invariant Feedback(listing, States(amps), round, fuel) == goal
      decreases round
    {
      var done;
      done, signal, round := FeedbackRound(listing, amps, States(amps), round, fuel);
      if done {
        return signal;
      }
    }
  }
}
