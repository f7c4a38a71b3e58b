/**
 * day2.py: the first Intcode draft. Only ADD (1), MULTIPLY (2) and HALT (99)
 * exist, the opcode is the whole cell, every parameter is an address, and
 * `execute` works in place on the caller's list. The main block searches the
 * nouns and verbs that make cell 0 a target value.
 */
module Day2 {
  import opened Wrappers
  import Vm

  /** `Opcode(cell)`: only the whole values 1, 2 and 99 name an opcode. */
  function OpcodeOf(cell: int): (r: Option<Vm.Opcode>)
    ensures r.Some? <==> cell == 1 || cell == 2 || cell == 99
    ensures r == Some(Vm.Add) <==> cell == 1
    ensures r == Some(Vm.Multiply) <==> cell == 2
  {
    if cell == 1 then Some(Vm.Add)
    else if cell == 2 then Some(Vm.Multiply)
    else if cell == 99 then Some(Vm.Halt)
    else None
  }

  /** Where a call of `execute` stops: the list, the pointer and the reason. */
  datatype Stop = Stop(memory: seq<int>, pointer: int, outcome: Vm.Outcome)

  /**
   * One ADD or MULTIPLY at `pointer`: `a, b, c = program[pointer+1:pointer+4]`
   * fails when fewer than three cells follow, and the three are addresses.
   */
  function Step(m: seq<int>, pointer: nat, op: Vm.Opcode): (r: Result<seq<int>, Vm.Fault>)
    requires op == Vm.Add || op == Vm.Multiply
  {
    if pointer + 4 > |m| then Err(Vm.AddressOutOfRange)
    else
      var a, b, c := m[pointer + 1], m[pointer + 2], m[pointer + 3];
      if !(Vm.InRange(m, a) && Vm.InRange(m, b) && Vm.InRange(m, c)) then Err(Vm.AddressOutOfRange)
      else Ok(m[c := if op == Vm.Add then m[a] + m[b] else m[a] * m[b]])
  }

  /** `execute(program)` from `pointer` with at most `fuel` instructions. */
  function Run(m: seq<int>, pointer: nat, fuel: nat): Stop
    decreases fuel
  {
    if pointer >= |m| then Stop(m, pointer, Vm.Crashed(Vm.AddressOutOfRange))
    else match OpcodeOf(m[pointer])
      case None => Stop(m, pointer, Vm.Crashed(Vm.Undecodable(m[pointer])))
      case Some(op) =>
        if op == Vm.Halt then Stop(m, pointer, Vm.Halted)
        else if fuel == 0 then Stop(m, pointer, Vm.OutOfFuel)
        else match Step(m, pointer, op)
          case Err(f) => Stop(m, pointer, Vm.Crashed(f))
          case Ok(next) => Run(next, pointer + 4, fuel - 1)
  }

  /**
   * A step writes the sum or product of the cells its first two parameters name
   * into the cell its third names, and changes nothing else.
   */
  lemma {:induction false} StepWrites(m: seq<int>, pointer: nat, op: Vm.Opcode)
    requires op == Vm.Add || op == Vm.Multiply
    requires Step(m, pointer, op).Ok?
    ensures var m' := Step(m, pointer, op).value;
      var a, b, c := m[pointer + 1], m[pointer + 2], m[pointer + 3];
      |m'| == |m| && 0 <= a < |m| && 0 <= b < |m| && 0 <= c < |m| &&
      m'[c] == (if op == Vm.Add then m[a] + m[b] else m[a] * m[b]) &&
      forall j :: 0 <= j < |m| && j != c ==> m'[j] == m[j]
  {
  }

  /** Day 2's instructions are vm.py's ADD and MULTIPLY with every mode 0. */
  lemma {:induction false} StepAgreesWithVm(m: seq<int>, pointer: nat, inputs: seq<int>, output: seq<int>)
    requires pointer < |m| && (m[pointer] == 1 || m[pointer] == 2)
    ensures var s := Vm.State(m, inputs, pointer, 0, output);
      var instr := Vm.Decode(m[pointer]);
      instr.Some? && instr.value.modes == [0, 0, 0] &&
      match Step(m, pointer, OpcodeOf(m[pointer]).value)
      case Ok(next) => Vm.Perform(s, instr.value) == Ok(s.(memory := next, ip := pointer + 4))
      case Err(f) => Vm.Perform(s, instr.value) == Err(f)
  {
  }

  /**
   * A run keeps the length of the list and only moves the pointer in steps of
   * four; it returns normally only on a cell holding 99.
   */
  lemma {:induction false} RunProperties(m: seq<int>, pointer: nat, fuel: nat)
    ensures var r := Run(m, pointer, fuel);
      |r.memory| == |m| && r.pointer >= pointer && (r.pointer - pointer) % 4 == 0 &&
      r.outcome != Vm.Paused &&
      (r.outcome == Vm.Halted ==> 0 <= r.pointer < |r.memory| && r.memory[r.pointer] == 99)
    decreases fuel
  {
    if pointer < |m| && OpcodeOf(m[pointer]).Some? {
      var op := OpcodeOf(m[pointer]).value;
      if op != Vm.Halt && fuel > 0 && Step(m, pointer, op).Ok? {
        var next := Step(m, pointer, op).value;
        var rest := fuel - 1;
        assert Run(m, pointer, fuel) == Run(next, pointer + 4, rest);
        RunProperties(next, pointer + 4, rest);
        var r := Run(next, pointer + 4, rest);
        var k := (r.pointer - (pointer + 4)) / 4;
        assert r.pointer - pointer == 4 * (k + 1);
      }
    }
  }

  /**
   * day2.py's `execute(program)`: it changes the caller's list in place, exactly as
   * Run computes, and hands the same list back.
   */
  method Execute(program: array<int>, fuel: nat) returns (outcome: Vm.Outcome)
    modifies program
    ensures var r := Run(old(program[..]), 0, fuel); program[..] == r.memory && outcome == r.outcome
  {
    var pointer := 0;
    var steps := fuel;
    while true
      invariant Run(program[..], pointer, steps) == Run(old(program[..]), 0, fuel)
      decreases steps
    {
      if pointer >= program.Length {
        return Vm.Crashed(Vm.AddressOutOfRange);
      }
      var opcode := OpcodeOf(program[pointer]);
      if opcode.None? {
        return Vm.Crashed(Vm.Undecodable(program[pointer]));
      }
      if opcode.value == Vm.Halt {
        return Vm.Halted;
      }
      if steps == 0 {
        return Vm.OutOfFuel;
      }
      ghost var before, fuelBefore := program[..], steps;
      var fault := ExecuteInstruction(program, pointer, opcode.value);
      if fault.Some? {
        return Vm.Crashed(fault.value);
      }
      pointer := pointer + 4;
      steps := steps - 1;
      RunStep(before, pointer - 4, fuelBefore, program[..], steps);
    }
  }

  /** The ADD or MULTIPLY at `pointer`, written into the caller's list. */
  method ExecuteInstruction(program: array<int>, pointer: nat, op: Vm.Opcode) returns (fault: Option<Vm.Fault>)
    requires op == Vm.Add || op == Vm.Multiply
    modifies program
    ensures fault.None? ==> Step(old(program[..]), pointer, op) == Ok(program[..])
    ensures fault.Some? ==> Step(old(program[..]), pointer, op) == Err(fault.value) && program[..] == old(program[..])
  {
    if pointer + 4 > program.Length {
      return Some(Vm.AddressOutOfRange);
    }
    var a, b, c := program[pointer + 1], program[pointer + 2], program[pointer + 3];
    if !(0 <= a < program.Length && 0 <= b < program.Length && 0 <= c < program.Length) {
      return Some(Vm.AddressOutOfRange);
    }
    if op == Vm.Add {
      program[c] := program[a] + program[b];
    } else {
      program[c] := program[a] * program[b];
    }
    return None;
  }

  /** A run goes on from the step's result with one instruction less. */
  lemma {:induction false} RunStep(m: seq<int>, pointer: nat, fuel: nat, next: seq<int>, rest: nat)
    requires pointer < |m| && (m[pointer] == 1 || m[pointer] == 2) && fuel == rest + 1
    requires Step(m, pointer, OpcodeOf(m[pointer]).value) == Ok(next)
    ensures Run(m, pointer, fuel) == Run(next, pointer + 4, rest)
  {
  }

  /** `copy = program[:]; copy[1] = noun; copy[2] = verb; execute(copy)`. */
  function Trial(program: seq<int>, noun: int, verb: int, fuel: nat): (r: Stop)
    ensures |program| < 3 ==> r.outcome == Vm.Crashed(Vm.AddressOutOfRange)
  {
    if |program| < 3 then Stop(program, 0, Vm.Crashed(Vm.AddressOutOfRange))
    else Run(program[1 := noun][2 := verb], 0, fuel)
  }

  /**
   * The nested `for noun` / `for verb` loops from pair number `k` on (noun `k / 100`,
   * verb `k % 100`): `Ok(Some(100 * noun + verb))` for the first pair whose cell 0
   * is `target`, `Ok(None)` when no pair is (the final `assert False`), and
   * `Err(o)` when a trial stops with `o` instead of HALT (the exception ends the
   * search).
   */
  function SearchFrom(program: seq<int>, target: int, k: nat, fuel: nat): Result<Option<int>, Vm.Outcome>
    decreases 10000 - k
  {
    if k >= 10000 then Ok(None)
    else
      var t := Trial(program, k / 100, k % 100, fuel);
      if t.outcome != Vm.Halted then Err(t.outcome)
      else if |t.memory| > 0 && t.memory[0] == target then Ok(Some(100 * (k / 100) + k % 100))
      else SearchFrom(program, target, k + 1, fuel)
  }

  /** Whether trial number `k` halts with `target` in cell 0. */
  predicate Hits(program: seq<int>, target: int, k: nat, fuel: nat)
  {
    var t := Trial(program, k / 100, k % 100, fuel);
    t.outcome == Vm.Halted && |t.memory| > 0 && t.memory[0] == target
  }

  /**
   * A found answer is `100 * noun + verb` of a pair that hits the target, and
   * every earlier pair halted without hitting it; `Ok(None)` means every pair
   * halted and none hit.
   */
  lemma {:induction false} SearchFound(program: seq<int>, target: int, k: nat, fuel: nat)
    ensures var r := SearchFrom(program, target, k, fuel);
      (r.Ok? && r.value.Some? ==>
        k <= r.value.value < 10000 && Hits(program, target, r.value.value, fuel) &&
        forall j :: k <= j < r.value.value ==> Trial(program, j / 100, j % 100, fuel).outcome == Vm.Halted && !Hits(program, target, j, fuel)) &&
      (r == Ok(None) ==> forall j :: k <= j < 10000 ==> Trial(program, j / 100, j % 100, fuel).outcome == Vm.Halted && !Hits(program, target, j, fuel))
    decreases 10000 - k
  {
    if k < 10000 {
      var t := Trial(program, k / 100, k % 100, fuel);
      assert 100 * (k / 100) + k % 100 == k;
      if t.outcome == Vm.Halted && !Hits(program, target, k, fuel) {
        var r := SearchFrom(program, target, k + 1, fuel);
        assert SearchFrom(program, target, k, fuel) == r;
        SearchFound(program, target, k + 1, fuel);
        if r.Ok? && r.value.Some? {
          forall j | k <= j < r.value.value
            ensures Trial(program, j / 100, j % 100, fuel).outcome == Vm.Halted && !Hits(program, target, j, fuel)
          {
            if j == k {
              assert Trial(program, j / 100, j % 100, fuel) == t;
            }
          }
        }
        if r == Ok(None) {
          forall j | k <= j < 10000
            ensures Trial(program, j / 100, j % 100, fuel).outcome == Vm.Halted && !Hits(program, target, j, fuel)
          {
            if j == k {
              assert Trial(program, j / 100, j % 100, fuel) == t;
            }
          }
        }
      }
    }
  }

  /**
   * The second part's nested loops: each trial runs on a fresh copy of the
   * caller's list, which is never changed.
   */
  method Search(program: array<int>, target: int, fuel: nat) returns (r: Result<Option<int>, Vm.Outcome>)
    ensures r == SearchFrom(program[..], target, 0, fuel)
  {
    ghost var goal := SearchFrom(program[..], target, 0, fuel);
    for noun := 0 to 100
      invariant SearchFrom(program[..], target, 100 * noun, fuel) == goal
    {
      for verb := 0 to 100
        invariant SearchFrom(program[..], target, 100 * noun + verb, fuel) == goal
      {
        var outcome, cell0 := RunTrial(program, noun, verb, fuel);
        ghost var k := 100 * noun + verb;
        SearchNext(program[..], target, noun, verb, k, fuel);
        if outcome != Vm.Halted {
          return Err(outcome);
        }
        if cell0 == Some(target) {
          return Ok(Some(100 * noun + verb));
        }
        ghost var k' := 100 * noun + (verb + 1);
        assert k' == k + 1;
      }
      ghost var k := 100 * (noun + 1);
      assert k == 100 * noun + 100;
    }
    return Ok(None);
  }

  /** Pair number `k` is noun `k / 100` with verb `k % 100`; a miss passes the search on to `k + 1`. */
  lemma {:induction false} SearchNext(program: seq<int>, target: int, noun: nat, verb: nat, k: nat, fuel: nat)
    requires noun < 100 && verb < 100 && k == 100 * noun + verb
    ensures k < 10000 && k / 100 == noun && k % 100 == verb
    ensures var t := Trial(program, noun, verb, fuel);
      SearchFrom(program, target, k, fuel) ==
        if t.outcome != Vm.Halted then Err(t.outcome)
        else if |t.memory| > 0 && t.memory[0] == target then Ok(Some(k))
        else SearchFrom(program, target, k + 1, fuel)
  {
    assert k / 100 == noun && k % 100 == verb;
  }

  /** One trial on a copy; `cell0` is `executed[0]` when the run halts. */
  method RunTrial(program: array<int>, noun: int, verb: int, fuel: nat) returns (outcome: Vm.Outcome, cell0: Option<int>)
    ensures var t := Trial(program[..], noun, verb, fuel);
      outcome == t.outcome && (cell0.Some? <==> |t.memory| > 0) && (cell0.Some? ==> cell0.value == t.memory[0])
  {
    if program.Length < 3 {
      return Vm.Crashed(Vm.AddressOutOfRange), if program.Length > 0 then Some(program[0]) else None;
    }
    var copy := new int[program.Length](i requires 0 <= i < program.Length reads program => program[i]);
    assert copy[..] == program[..];
    copy[1] := noun;
    copy[2] := verb;
    assert copy[..] == program[..][1 := noun][2 := verb];
    outcome := Execute(copy, fuel);
    RunProperties(program[..][1 := noun][2 := verb], 0, fuel);
    cell0 := Some(copy[0]);
  }
}
