# Advent of Code 2019 solutions and their Intcode machine, in Dafny

This project models a set of Python solutions to the 2019 Advent of Code
puzzles. At their centre is the Intcode machine of `vm.py`, a
stored-program interpreter for the opcodes 1-8 and 99 with position and
immediate parameter modes. Its state is a memory list, an input list with
a read cursor, an output list, an instruction pointer and a
pause-on-output flag. Beside it are the earlier drafts of the machine
(day 2, day 5 and day 7) and the puzzle solutions of days 1-8 and 10-17.
Each solution is modelled after its own code.

Layout: one module per source file (`Vm`, `Day1` ... `Day17`), and three
shared modules:
- `Wrappers` holds `Option` and `Result`;
- `Numbers` models Python's `abs`, `math.gcd`, `sum` and the ends of `sorted`;
- `Decimal` models `str(n)` and `int(s)` for integers.

The model takes each source file in its own form:
- **Pure code becomes functions and lemmas.** Decoding, `halted`, `normalized`, `path_to`, `lcm`, `total_fuel_required` and the comprehensions are of this kind.
- **Loops that update variables become methods with loop invariants.** Each is proved equal to a specification function: `Vm.Machine.Execute` ends in exactly the state `Vm.Run` computes, and the day 16 phase loops compute `Day16.Phases`.
- **Objects whose fields the source updates become classes.** These are the machines of `vm.py` and `day7.py`, `Day11.Robot`, `Day12.Moon`, `Day8.Layer`, `Day6.OrbitTable` and `Day14.Nanofactory`.
- **`day2.py` and `day5.py` change the caller's list in place.** Their `execute` works on an `array<int>`.

Python's exceptions are explicit results:
- `ValueError`, `IndexError`, `KeyError`, `NameError` and `ZeroDivisionError` become `None`, `Err` or a `false` flag, wherever the source would raise.
- For the machines, an undecodable instruction, an address off the list and an exhausted input list each have their own `Vm.Fault`.

Loops that need not end carry a `fuel` bound; `Vm.Outcome.OutOfFuel` names its exhaustion. These are the Intcode `execute`, the day 7 feedback loop and the day 15 searches. `produce` of day 14 instead takes a ranking of the chemicals that shows the reactions are acyclic.

Python's floor division and modulo agree with Dafny's for the positive divisors used here. The one negative case, `-1 % 100 == 99`, is stated as `Vm.DecodeMinusOne`. Python integers are unbounded, and so are Dafny's.

`day7.py` reads the module-level `program` list in two places: the fetch of every instruction after the first, and the raw parameters of EQUALS. That list is the listing the amplifiers were copied from. It is modelled as an explicit read-only `listing` parameter, modelled as written, self-modifying programs included (`Day7.SelfModifyingExample`).

## Model

| member | source | states |
|---|---|---|
| Vm.OpcodeOf | vm.py:10-20 | `Opcode(n)` succeeds exactly for 1-8 and 99, and the opcode found has value `n` |
| Vm.OpcodeRoundTrip | vm.py:10-20 | looking up an opcode's own value gives the opcode back |
| Vm.Decode | vm.py:30-36 | a cell decodes exactly when `cell % 100` names an opcode; the opcode is that one and there are three modes, each a digit 0-9 |
| Vm.DecodeEncode | vm.py:30-36 | decoding `op + 100*m0 + 1000*m1 + 10000*m2` gives back `op` and modes `[m0, m1, m2]` |
| Vm.EncodeDecode | vm.py:30-36 | every decodable cell in 0..99999 is the encoding of its opcode and modes |
| Vm.DecodeMinusOne | vm.py:31 | the cell -1 decodes to HALT with modes 9, 9, 9, by floor modulo |
| Vm.Operand | vm.py:61-62 | mode 0 reads `memory[p]`, failing outside the list; any other mode yields `p` itself |
| Vm.Fetch | vm.py:55-108 | the instruction at `ip` is the decoding of `memory[ip]`; an `ip` off the list or an undecodable cell is a fault |
| Vm.Perform | vm.py:59-106 | one instruction keeps the memory length and the input list, moves the input cursor only on SAVE (by one), and changes the output only on PRINT (one value appended, earlier output kept); faults are address or input faults |
| Vm.HaltedAt | vm.py:49-51 | `halted` is true exactly when `memory[ip] % 100 == 99`, and false exactly for another decodable cell |
| Vm.WriteStep | vm.py:59-104 | ADD, MULTIPLY, LESS_THAN and EQUALS store the combined operands at `memory[c]`, with `c` the raw third parameter; every other cell, the cursor and the output stay, and `ip` moves by 4 |
| Vm.WriteTargetIgnoresMode | vm.py:63-73 | changing the mode of the write parameter never changes the result |
| Vm.CompareStoresBit | vm.py:93-104 | LESS_THAN and EQUALS store 0 or 1, and 1 exactly when the test holds |
| Vm.SaveStep | vm.py:71-75 | SAVE stores `inputs[input_pointer]` at `memory[memory[ip+1]]`, advances the cursor by 1 and `ip` by 2, and leaves the input list alone |
| Vm.PrintStep | vm.py:76-80 | PRINT appends exactly its operand to the output, leaves memory and cursor alone, and moves `ip` by 2 |
| Vm.JumpStep | vm.py:83-92 | the jumps set `ip` to the second operand when the test holds and to `ip + 3` otherwise, and leave memory and output alone |
| Vm.RunFrame | vm.py:53-108 | over a whole run the memory length and input list are kept, the cursor never moves back and earlier output stays a prefix |
| Vm.RunStops | vm.py:57-82 | a halted run leaves `ip` on a HALT cell (and, with `pause_on_output`, printed nothing); a paused run happens only with `pause_on_output` set and added exactly one output value |
| Vm.ArithmeticExample | vm.py:59-70 | a position-mode ADD then MULTIPLY program halts with 3500 in cell 0 |
| Vm.EqualsEightExample | vm.py:71-104 | the "input equals 8" program prints 1 exactly for input 8 and 0 otherwise |
| Vm.Machine.constructor | vm.py:39-47 | a new machine holds the contents of the given memory and inputs (copies, not the caller's lists) and the pause flag, with `ip` 0, input cursor 0 and no output |
| Vm.Machine.IsHalted | vm.py:49-51 | the property is true exactly when `ip` is on the list and its cell is 99 modulo 100 |
| Vm.Machine.Execute | vm.py:53-108 | the fields end in exactly the state, and the call in the outcome, that `Run` computes from the old fields; the pause flag is kept |
| Vm.Machine.ExecuteInstruction | vm.py:59-106 | one loop iteration changes the fields exactly as `Perform` does, and changes nothing on a fault |
| Day1.FuelRequired | day1.py:1-3 | the fuel is `mass // 3 - 2`, stated as the floor bounds `3(fuel+2) <= mass < 3(fuel+3)` |
| Day1.FuelRequiredMonotone | day1.py:1-3 | more mass never needs less fuel |
| Day1.FuelRequiredDecreases | day1.py:6-12 | for positive fuel, the fuel it needs is strictly smaller, so the recursion stops |
| Day1.TotalFuelRequired | day1.py:6-12 | the total is 0 for fuel <= 0 and at least the fuel itself for positive fuel |
| Day1.TotalFuelMonotone | day1.py:6-12 | more fuel never needs less total fuel |
| Day1.FuelChain | day1.py:8-12 | the chain of amounts the recursion adds up is all positive |
| Day1.TotalFuelIsChainSum | day1.py:6-12 | the total is the sum of the chain `f, fuel(f), fuel(fuel(f)), ...`, each member being the fuel of the one before, starting at `f` |
| Day1.ModuleFuel | day1.py:21 | part one: the sum of the module fuels, 0 for no modules |
| Day1.ModuleTotalFuel | day1.py:24 | part two: the sum of the total fuel of each module's fuel, never negative |
| Day1.PartTwoCoversPartOne | day1.py:21-24 | over modules that need fuel, part two is at least part one |
| Day1.Examples | day1.py:1-12 | worked values: masses 12, 14 and 1969 need 2, 2 and 654; fuel 2 totals 2 and fuel 654 totals 966 |
| Day2.OpcodeOf | day2.py:11-16 | only the whole cell values 1, 2 and 99 name an opcode |
| Day2.StepWrites | day2.py:25-30 | an ADD or MULTIPLY writes the sum or product of the cells named by its first two parameters into the cell its third names, keeping the length and every other cell |
| Day2.StepAgreesWithVm | day2.py:25-34 | day 2's instructions behave as vm.py's ADD and MULTIPLY with all modes 0 |
| Day2.RunProperties | day2.py:18-37 | a run keeps the list length, moves the pointer in steps of 4, and returns normally only on a cell holding 99 |
| Day2.Execute | day2.py:18-37 | `execute` changes the caller's list in place to exactly what `Run` computes |
| Day2.ExecuteInstruction | day2.py:25-30 | one ADD or MULTIPLY writes into the caller's list exactly what `Step` computes, and leaves the list untouched on a fault |
| Day2.RunStep | day2.py:25-35 | after one successful step the run continues from the new list at `pointer + 4` |
| Day2.Trial | day2.py:46-58 | a program shorter than 3 cells fails on `copy[1] = noun` or `copy[2] = verb` |
| Day2.SearchFound | day2.py:53-63 | a found answer is `100 * noun + verb` of a pair that puts the target in cell 0, and every earlier pair halted without doing so; no answer means every pair halted and none hit |
| Day2.Search | day2.py:53-63 | the nested loops compute exactly `SearchFrom`, on fresh copies, leaving the caller's list unchanged |
| Day2.SearchNext | day2.py:53-61 | pair number `100 * noun + verb` is that noun and verb, and a miss hands the search on to the next pair |
| Day2.RunTrial | day2.py:55-58 | one trial on a copy gives the outcome and cell 0 of `Trial` |
| Day3.Unit | day3.py:14-33 | each direction in the `vecs` table is a unit step |
| Day3.SegmentWalk | day3.py:31-34 | a segment of length `n` visits `n` points |
| Day3.MoveLeaves | day3.py:31-34 | a unit step taken one or more times never lands back where it started |
| Day3.ElemsMembers | day3.py:35 | `points[i]` holds exactly the visited points |
| Day3.StepsLatest | day3.py:36-37 | `steps[i][p]` is the step number of the latest visit to `p`, and only visited points have an entry |
| Day3.AdvanceWalks | day3.py:29-39 | an item `Dn` with `n >= 1` visits exactly `pos + d * 1` to `pos + d * n`, in order, never `pos` itself, and moves `pos` to its end |
| Day3.ShortItemJumps | day3.py:31-39 | an item of length 0 or less visits nothing and moves `pos` to the last point computed, and raises when there is none yet |
| Day3.FollowStops | day3.py:27-39 | once an item raises, no later item of the wire is traced |
| Day3.TraceAllStops | day3.py:22-39 | once a wire raises, no later wire is traced |
| Day3.WalkSegment | day3.py:31-37 | the inner loop leaves the point set, step map and step count of the visits extended by the segment, and ends at `pos + d * n` |
| Day3.TraceWire | day3.py:24-39 | one wire succeeds exactly when `Follow` does, and then yields the point set and step map of its visits |
| Day3.TraceWires | day3.py:22-39 | the outer loop succeeds exactly when `TraceAll` does, and yields each wire's point set and step map |
| Day3.Crosses | day3.py:41 | the crossings are exactly the points of both of the first two wires; fewer than two wires raise |
| Day3.ClosestManhattan | day3.py:44-46 | the first answer is the least Manhattan distance of a crossing, missing exactly when there are no crossings |
| Day3.ClosestSteps | day3.py:50 | the second answer is the least combined step count of a crossing, missing exactly when there are no crossings |
| Day3.CrossesHaveSteps | day3.py:41-50 | every crossing has a step entry in both wires' maps, so the second part never raises `KeyError` |
| Day4.Insert | day4.py:15 | inserting a character lengthens the string by one and adds no other character |
| Day4.Sort | day4.py:15 | `sorted` keeps the length |
| Day4.InsertPermutes | day4.py:15 | inserting adds exactly one occurrence of the character and changes no other count |
| Day4.SortPermutes | day4.py:15 | `sorted` returns a permutation of its input |
| Day4.InsertKeepsOrder | day4.py:15 | inserting into a non-decreasing string keeps it non-decreasing |
| Day4.SortOrders | day4.py:15 | `sorted`'s result never decreases |
| Day4.SortedIff | day4.py:15 | `sorted(digit) == list(digit)` holds exactly for strings whose characters never decrease |
| Day4.CandidatesStep | day4.py:12-16 | one more number at the top of the range appends its string exactly when it passes the first rule |
| Day4.Passwords | day4.py:11-16 | the loop builds exactly the accepted strings of the range, in order |
| Day4.CandidatesMembers | day4.py:12-16 | a string is listed exactly when it is `str(d)` of some `d` in `low..high` that passes the first rule |
| Day4.CandidatesIncrease | day4.py:12-16 | every listed string reads back as a number of the range, and the list is in strictly increasing numeric order |
| Day4.CharsCount | day4.py:15 | a string has at most as many distinct characters as it is long, and exactly as many when no character repeats |
| Day4.AdjacentPair | day4.py:15 | for six non-decreasing digits, fewer than six distinct ones means two equal neighbours and back |
| Day4.FiveDigitsAccepted | day4.py:15 | the length is never checked: `12345` passes the first rule |
| Day4.Stricter | day4.py:21 | the second list is no longer than the first and holds exactly the first's strings with a character occurring exactly twice |
| Day4.StricterAppend | day4.py:21 | the comprehension keeps order: filtering a concatenation concatenates the filtered parts |
| Day5.Zeros | day5.py:31 | `"0" * n` is `n` zeros, and empty for `n <= 0` |
| Day5.ModeDigits | day5.py:32 | the mode characters convert exactly when all are digits, giving one mode 0-9 per character |
| Day5.Decode | day5.py:25-32 | a decoded instruction keeps its cell, takes its opcode from `% 100` and has at least three modes |
| Day5.ModeStringDigit | day5.py:30-31 | for a non-negative cell the padded mode string holds its hundreds, thousands and ten-thousands digits in its last three places |
| Day5.ModeStringLength | day5.py:30-31 | for a non-negative cell the mode string is all digits, and longer than three exactly from 100000 on |
| Day5.DecodeAgreesWithVm | day5.py:25-32 | for non-negative cells the string decoder accepts exactly what vm.py's decoder accepts, its first three modes are vm.py's, and it gives extra modes exactly from 100000 on |
| Day5.ModeAgrees | day5.py:25-32 | for a non-negative cell the string decoder's mode `i` is the digit vm.py takes at the same place |
| Day5.DecodeNegative | day5.py:30-32 | cells from -9 to -1 decode with modes 0, 0, 0 (vm.py reads 9s), and from -10 down the `-` among the mode characters makes `int` fail |
| Day5.Fetch | day5.py:44-108 | a fetched instruction is the decoding of the cell at `pointer`, which is on the list |
| Day5.Perform | day5.py:48-106 | one instruction keeps the list length and either keeps the output or appends one value |
| Day5.PerformAgreesWithVm | day5.py:48-106 | each instruction does what vm.py's does for a machine whose next input is `program_input` |
| Day5.SaveStoresInput | day5.py:61-64 | every SAVE stores the one `program_input` at the raw address `program[pointer+1]` and moves `pointer` by 2 |
| Day5.RunProperties | day5.py:40-110 | a run never pauses, ends normally only on a cell decoding to HALT, keeps the list length, and keeps the earlier output as a prefix |
| Day5.Execute | day5.py:40-110 | `execute` changes the caller's list in place to the memory `Run` computes and returns `Run`'s output and outcome |
| Day5.ExecuteInstruction | day5.py:48-106 | one loop iteration changes the list, pointer and output exactly as `Perform`, and changes nothing on a fault |
| Day6.MapOrbits | day6.py:23-33 | the loop builds exactly the fold of `AddPair` over the pairs |
| Day6.AddPairShape | day6.py:26-31 | one pair gives both names a node and appends the orbiter to the target's children, leaving every other node alone |
| Day6.AddPairClosed | day6.py:26-31 | after one pair every child still has a node |
| Day6.MapShape | day6.py:23-33 | `map_orbits` gives a node to exactly the names in some pair, each node's children are the orbiters paired with it in input order, and every child has a node |
| Day6.NotMentionedNoChildren | day6.py:26-31 | a name in no pair has no children |
| Day6.Unfold | day6.py:31 | the node of a name carries that name and, one level down, exactly the children the map lists |
| Day6.PathToSpec | day6.py:47-60 | `path_to` is empty exactly when no node of the subtree has the name; otherwise it starts at `current`, each node is a child of the one before, and it ends at a node with that name |
| Day6.PathFromSpec | day6.py:55-60 | the loop over the children finds nothing exactly when no remaining child's subtree has the name, and otherwise a chain from one of those children |
| Day6.LastNamed | day6.py:68-70 | the reversed scan finds nothing exactly when no node's name is among the ancestors, and otherwise the last such node of the path |
| Day6.LowestCommonAncestorSpec | day6.py:63-72 | the ancestor is the deepest node on the path to `second` whose name is on the path to `first`, and it exists whenever both names are in the tree |
| Day6.ChecksumIsDepthSum | day6.py:36-44 | `orbit_checksum` is the sum of the depths of every node of the subtree |
| Day6.AssignIsOverride | day6.py:36-44 | `orbit_checksum` writes each visited node's depth into its field, in visiting order |
| Day6.OverrideFrame | day6.py:42 | exactly the visited names get a field, and every other field keeps its value |
| Day6.OverrideDistinct | day6.py:42 | when no name repeats, each visited node's field holds its own depth |
| Day6.LabelsShift | day6.py:44 | starting one level deeper moves every visited node's depth by the same amount |
| Day6.LabelsStart | day6.py:42 | the root is visited first, at the starting depth |
| Day6.DepthSumAppend | day6.py:44 | the depth sums of two parts of a visit add up |
| Day6.OverrideAppend | day6.py:42 | writing two runs of labels is writing the first, then the second |
| Day6.OrbitTable.OrbitChecksum | day6.py:36-44 | the recursion returns `Checksum` and leaves the fields as `Assign` writes them |
| Day7.FetchFrom | day7.py:57-122 | a fetched instruction is the string decoding of the cell at `ip`; off the list is an address fault, an undecodable cell a decode fault |
| Day7.Perform | day7.py:61-120 | one instruction keeps the memory length and input list, moves the cursor only on SAVE, and changes the output only on PRINT, appending one value |
| Day7.HaltedAt | day7.py:51-53 | the property decodes exactly when the cell at `ip` decodes, and is true exactly when that cell is 99 modulo 100 |
| Day7.PerformAgreesWithVm | day7.py:61-120 | every instruction is vm.py's on the first three modes; EQUALS is too when the listing and memory agree on its three parameters |
| Day7.EqualsStoresBit | day7.py:110-118 | EQUALS takes its raw parameters from the listing, compares operands read from the machine's own memory, stores 0 or 1 (1 exactly on equality) at the listed target, and moves `ip` by 4 |
| Day7.LessThanStoresBit | day7.py:101-109 | LESS_THAN stores 0 or 1, and 1 exactly when the first operand is smaller |
| Day7.SaveStep | day7.py:73-77 | SAVE stores `inputs[input_pointer]` at `program[ip+1]`, moves the cursor by 1 and `ip` by 2, and leaves the input list alone |
| Day7.ContinueFrame | day7.py:59-122 | after the first fetch the memory length and inputs stay, the cursor only moves forward and earlier output stays a prefix |
| Day7.ContinueStops | day7.py:59-122 | a pause adds exactly one output value and needs `pause_on_output`; a halt is at the first fetch or on a listing cell decoding to HALT |
| Day7.ContinueStep | day7.py:59-122 | after an instruction that neither faults nor pauses, the loop goes on from the new state with the next fetch from the listing |
| Day7.RunProperties | day7.py:55-122 | over a call of `execute` the frame facts hold, a pause needs the flag and adds one output value, and a halt is on a HALT cell of its own memory or of the listing |
| Day7.SelfModifyingExample | day7.py:122 | a program that overwrites its next instruction with HALT halts silently in vm.py, while day7.py still runs the PRINT the listing holds there |
| Day7.SelfModifyingInVm | vm.py:108 | vm.py fetches the next instruction from its own memory, so the program halts at the overwritten cell with no output |
| Day7.SelfModifyingInDay7 | day7.py:122 | day7.py fetches the next instruction from the listing, so the program still prints cell 0 before it halts |
| Day7.DecodeExamples | day7.py:25-33 | `1101` decodes as ADD with modes 1, 1, 0, and `4` and `99` with all modes 0 |
| Day7.DecodeShort | day7.py:25-33 | every opcode cell below 100 decodes with modes 0, 0, 0 |
| Day7.Machine.constructor | day7.py:41-49 | a new machine holds the contents of the given program and inputs, with `ip` 0, cursor 0 and no output; the dataclass keeps the lists it is given, and its callers pass a fresh `program[:]` and fresh input lists, so nothing is shared |
| Day7.Machine.IsHalted | day7.py:51-53 | the property holds exactly when the cell at `ip` decodes and is 99 modulo 100 |
| Day7.Machine.PushInput | day7.py:151-160 | `inputs.append` adds one value at the end of the inputs and changes nothing else |
| Day7.Machine.Execute | day7.py:55-122 | the fields end in exactly the state, and the call in the outcome, that `Run` computes from the old fields |
| Day7.Machine.ExecuteInstruction | day7.py:61-120 | one loop iteration changes the fields exactly as `Perform` does, and nothing on a fault |
| Day7.ChainAppend | day7.py:133-138 | a chain split in two is the first part handing its signal to the second |
| Day7.AmplifierChain | day7.py:133-138 | the inner loop computes exactly `ChainSignal` from signal 0 |
| Day7.ThrusterSignals | day7.py:131-138 | a result holds one signal per sequence, each that sequence's chain signal; none means some chain failed |
| Day7.Max | day7.py:139 | `max` is an element no element exceeds |
| Day7.MaxThrusterSignal | day7.py:131-139 | the result is the signal of some sequence and no sequence's signal exceeds it; none means there are no sequences or some chain failed |
| Day7.Feed | day7.py:158-160 | after amplifier `k` runs, it alone takes the new output, and the next amplifier `(k + 1) % n` alone gains the last output value as an input |
| Day7.FeedbackPass | day7.py:156-160 | a pass keeps the number of amplifiers |
| Day7.FeedbackStep | day7.py:154-160 | the loop goes on only when rounds remain, and then with the states after one whole pass |
| Day7.FeedbackDone | day7.py:154-162 | the loop ends where its test says, with the last amplifier's latest output |
| Day7.FeedbackNext | day7.py:154-160 | a pass that goes through leaves one round fewer |
| Day7.InitialAmps | day7.py:146-151 | one machine per setting |
| Day7.FeedbackPassWiring | day7.py:156-160 | over a pass each amplifier gains one input exactly when its sender runs, keeps its earlier inputs, and the new input is the sender's latest output |
| Day7.WiredStep | day7.py:158-160 | the wiring of one amplifier carries back over one step of the pass |
| Day7.NextIndex | day7.py:160 | `(k + 1) % n` is the next amplifier, wrapping to 0, and amplifier `k` is its sender |
| Day7.CreateAmplifiers | day7.py:146-151 | the new machines are distinct, fresh and pausing, and hold exactly the initial states |
| Day7.StepAmplifier | day7.py:158-160 | one iteration succeeds exactly when the run passes, and then the machines hold the `Feed` states |
| Day7.Deliver | day7.py:160 | the next machine gets the output signal as one more input, and every other machine is unchanged |
| Day7.RunPass | day7.py:156-160 | one pass over all the machines ends in exactly the `FeedbackPass` states, or fails exactly when it does |
| Day7.FeedbackRound | day7.py:154-160 | one test of the loop with its pass either ends with `Feedback`'s signal or leaves one round fewer with the same result to come |
| Day7.AdvanceRound | day7.py:156-160 | a pass from a non-halted last machine leaves one round fewer and the same result to come; a failed pass means `Feedback` fails |
| Day7.FeedbackLoop | day7.py:143-162 | part two for one sequence gives exactly `FeedbackSignal` |
| Day8.FlattenAppend | day8.py:18-19 | the pixels of two groups of rows are the pixels of the first followed by those of the second |
| Day8.TallyCounts | day8.py:17-20 | after the tally a value has an entry exactly when it occurs, and its entry is its number of occurrences |
| Day8.Tally | day8.py:17-20 | the nested loop builds exactly the tally of the layer's pixels in row order |
| Day8.Layer.constructor | day8.py:9-20 | a new layer keeps its rows and holds their tally |
| Day8.Layer.Count | day8.py:45-46 | `counts[p]` is how many pixels of the layer are `p`, and positive exactly when `p` has an entry |
| Day8.LayerRowsLength | day8.py:28-31 | a layer has `h` rows of at most `w` pixels |
| Day8.LayerRowsConcat | day8.py:28-31 | a layer's rows followed by the remaining pixels give back the pixels |
| Day8.AfterLayerShorter | day8.py:27-31 | a layer never adds pixels, and with positive dimensions it uses at least one |
| Day8.LayerRowsFull | day8.py:28-31 | with at least `w * h` pixels left every row is full and exactly `w * h` pixels are used |
| Day8.LayersShape | day8.py:23-34 | each layer has `h` rows of at most `w` pixels, and the layers together give back the pixels in order |
| Day8.LayersExact | day8.py:23-34 | exactly `k * w * h` pixels make exactly `k` layers of `h` full rows |
| Day8.TakeLayer | day8.py:28-31 | the inner loop returns exactly the next layer's rows and the pixels after them |
| Day8.ParseLayers | day8.py:23-34 | `parse_layers` builds exactly the layers `LayersSpec` describes, each with its tally |
| Day8.Overlay | day8.py:52-57 | a layer can be laid over the composite exactly when each of its non-transparent pixels falls inside it |
| Day8.StackVisible | day8.py:51-57 | for layers of one shape, laying them over in reverse gives each pixel of the first non-transparent layer from the top, or the last layer's |
| Day8.CompositeVisible | day8.py:49-57 | for layers of one shape the composite exists, has the last layer's shape, and shows at each position the first layer that is not transparent there, or the last layer's |
| Day8.OverlayLayer | day8.py:52-57 | the loops over one layer compute exactly `Overlay` |
| Day8.Composite | day8.py:49-57 | the compositing loop computes exactly `CompositeSpec` of the layers' rows |
| Day8.FirstMinimum | day8.py:45 | `min` with a key picks a smallest key, and no earlier key is as small |
| Day8.ZeroCounts | day8.py:45 | each layer's key is its number of 0 pixels |
| Day8.Checksum | day8.py:45-46 | the answer is missing exactly when there are no layers, and otherwise is the product of the 1s and the 2s of a layer with the fewest 0s |
| Day10.ModScale | day10.py:25 | scaling both operands of `%` by a positive `k` scales the remainder by `k`, the step of Euclid's algorithm behind `math.gcd` |
| Day10.NatGcdScale | day10.py:25 | on naturals, scaling both arguments of the gcd by a positive `k` scales it by `k` |
| Day10.ExactDivScale | day10.py:26 | an exact floor division `x // g` is unchanged when both operands are scaled by a positive `k` |
| Day10.GcdScale | day10.py:25 | scaling both arguments by a positive `k` scales `math.gcd` by `k` |
| Day10.Normalized | day10.py:20-26 | `normalized` fails exactly for the zero vector, where the gcd is 0 and the floor division raises |
| Day10.NormalizedLowest | day10.py:20-26 | the normalized vector is in lowest terms, and the gcd, which is positive, times it gives back the vector |
| Day10.NormalizedScale | day10.py:20-26 | every positive multiple of a vector has the same normalized form |
| Day10.NormalizedIdempotent | day10.py:20-26 | normalizing twice is normalizing once |
| Day10.RowScanShape | day10.py:33-35 | one row yields exactly its `'#'` cells, left to right |
| Day10.ScanShape | day10.py:32-35 | the first `n` rows yield exactly their asteroids, in row-major order |
| Day10.ParseAsteroids | day10.py:29-37 | the nested loops build exactly `Scan` of the whole grid |
| Day10.ParseAsteroidsSpec | day10.py:29-37 | `parse_asteroids` returns exactly the `'#'` cells of the grid, in row-major order |
| Day10.DirectionsMembers | day10.py:43-48 | a direction is in `visible` exactly when some other asteroid lies in it |
| Day10.DirectionsBound | day10.py:40-50 | the count never exceeds the number of other asteroids |
| Day10.SameRay | day10.py:43-48 | asteroids on one ray from the origin share one direction, so only one of them counts |
| Day10.CountVisible | day10.py:40-50 | the loop returns exactly the number of distinct directions to the other asteroids |
| Day11.LeftOf | day11.py:28-39 | any heading turned left is one of the four headings |
| Day11.RightOf | day11.py:41-52 | any heading turned right is one of the four headings |
| Day11.LeftCycle | day11.py:28-39 | left turns from a heading visit four different headings and come back after the fourth |
| Day11.RightCycle | day11.py:41-52 | right turns from a heading visit four different headings and come back after the fourth |
| Day11.TurnsUndo | day11.py:28-52 | for the four headings a left and a right turn undo each other |
| Day11.LeftSquare | day11.py:28-39 | four left turns walk around a square back to the starting panel |
| Day11.OtherHeading | day11.py:28-52 | a heading outside the four falls through both chains to up |
| Day11.Robot.constructor | day11.py:22-26 | a new robot is at the origin facing up |
| Day11.Robot.TurnLeft | day11.py:28-39 | the heading becomes its left turn and the robot moves one panel along the new heading |
| Day11.Robot.TurnRight | day11.py:41-52 | the heading becomes its right turn and the robot moves one panel along the new heading |
| Day12.Add | day12.py:17-18 | `Vec.__add__` adds the vectors componentwise |
| Day12.AddCommutative | day12.py:17-18 | vector addition is commutative |
| Day12.AddAssociative | day12.py:17-18 | vector addition is associative |
| Day12.AddZero | day12.py:17-18 | the zero vector is neutral for addition |
| Day12.Moon.constructor | day12.py:21-26 | a new moon holds the given position, velocity and name |
| Day12.Moon.Update | day12.py:28-29 | the position moves by the velocity, and the velocity and name stay |
| Day12.Moon.TotalEnergy | day12.py:31-35 | a moon's energy is never negative, and zero exactly when it stands still or sits at the origin |
| Day12.ProductZero | day12.py:33-35 | a product of two non-negative energies is non-negative, and zero exactly when one factor is |
| Day12.Lcm2Multiple | day12.py:40 | `x * y // gcd(x, y)` exists unless both are 0, is a multiple of both, and is positive for positive arguments |
| Day12.LcmMultiple | day12.py:38-42 | for positive periods `lcm` exists, is positive, and is a multiple of all three |
| Day12.QuotientOfProduct | day12.py:40-41 | dividing a product by a divisor of its second factor divides that factor |
| Day12.PullStep | day12.py:69-90 | one more moon adds its pull, one step per axis toward it |
| Day12.Gravity | day12.py:69-90 | gravity keeps the number of moons |
| Day12.AxisPullWithin | day12.py:71-90 | the pull of `h` moons on one axis is at most `h` in size |
| Day12.AxisPullSelf | day12.py:71-90 | a moon never pulls itself: its own pull from `h` moons is at most `h - 1` |
| Day12.GravityBound | day12.py:69-90 | one pass changes each velocity component by at most the number of other moons |
| Day12.PullsExtend | day12.py:69-90 | the running pulls extend by one moon at a time |
| Day12.PullsCancel | day12.py:69-90 | among any moons the pulls cancel, since each pair pulls equally and oppositely |
| Day12.GravityTotalPrefix | day12.py:69-90 | the total velocity after gravity is the old total plus the pulls among the moons |
| Day12.GravityConserves | day12.py:69-90 | gravity leaves the total velocity on every axis unchanged |
| Day12.PairGravity | day12.py:71-90 | one pair's update moves each velocity one step per axis toward the other moon, and changes no position or name |
| Day12.ReceivedStart | day12.py:65-69 | the pairs of moon `i` start where those of the moons before it ended |
| Day12.ReceivedStep | day12.py:65-90 | the pair `(i, j)` adds its pull to moons `i` and `j` only |
| Day12.ReceivedEnd | day12.py:65-69 | once moon `i`'s pairs are done, the pass has handled every pair whose first moon is at or below `i` |
| Day12.PairStep | day12.py:69-90 | pair `(i, j)` adds one pull to moons `i` and `j` and leaves every other moon, every position and every name unchanged |
| Day12.PairsFrom | day12.py:65-90 | the pairs with first moon `i`, in `itertools.combinations` order, add exactly their pulls, keeping positions and names |
| Day12.GravityPass | day12.py:65-90 | the pass over all pairs leaves positions and names alone and sets the velocities to exactly `Gravity` |
| Day12.StepSystem | day12.py:66-94 | one step keeps the number of moons |
| Day12.Simulate | day12.py:66-94 | any number of steps keeps the number of moons |
| Day12.SimulateConserves | day12.py:66-94 | the total velocity on every axis is the same after any number of steps |
| Day12.UpdateAll | day12.py:93-94 | updating every moon moves each by its own velocity and keeps velocities and names |
| Day12.Step | day12.py:66-94 | one step of the moons' objects gives exactly `StepSystem` |
| Day12.Run | day12.py:66-94 | the 1000-step loop gives exactly `Simulate` of the moons' state |
| Day12.SystemEnergy | day12.py:96 | the total energy is never negative, and zero when every moon stands still |
| Day13.TileOf | day13.py:6-34 | `Tile(n)` succeeds exactly for 0 to 4 |
| Day13.TileRoundTrip | day13.py:6-13 | a tile and its number are inverse to each other |
| Day13.DisplayInjective | day13.py:15-16 | different tiles are drawn with different characters |
| Day13.Pixels | day13.py:31-34 | the screen is read exactly when the output splits into whole triples with valid tile numbers |
| Day13.ReadScreen | day13.py:28-34 | the loop over the output computes exactly `Pixels`, failing on a short last triple or a bad tile number |
| Day13.ScreenKeys | day13.py:31-34 | the painted positions are exactly the positions of the triples read |
| Day13.ScreenLast | day13.py:34 | a position shows the tile of the last triple that painted it |
| Day13.LastPainter | day13.py:31-34 | every painted position has a last triple that paints it |
| Day13.BlockCounted | day13.py:34-36 | a position counts as a block exactly when the last triple painting it carries tile 2 |
| Day14.FindFrom | day14.py:17-22 | the search finds the first occurrence of the separator from `i` on, and fails exactly when there is none |
| Day14.Split | day14.py:17-22 | `str.split(sep)` always yields at least one piece |
| Day14.SplitStep | day14.py:17-22 | splitting cuts at the first occurrence and splits the rest |
| Day14.JoinCons | day14.py:17-22 | joining a piece in front of at least one more piece puts the separator between them |
| Day14.OccursAround | day14.py:17-22 | an occurrence of the separator cuts the string into the part before it, the separator and the part after |
| Day14.SplitJoin | day14.py:17-22 | joining the pieces with the separator gives back the string |
| Day14.SplitFront | day14.py:17-22 | a piece that cannot hold the separator's first character splits off whole |
| Day14.SplitWhole | day14.py:17-22 | a string without part of the separator is one piece |
| Day14.NoEarlyOccurrence | day14.py:17-22 | the separator cannot start inside a piece that lacks one of its characters |
| Day14.Parsed | day14.py:15 | one parse per line |
| Day14.ParseOne | day14.py:17-23 | the body of the outer loop, with its inner loop, computes exactly `ParseLine` |
| Day14.ParseReactions | day14.py:11-25 | `parse_reactions` computes exactly `Collect` of the lines' parses |
| Day14.ParseItemsFails | day14.py:21-23 | one bad requirement makes the whole line fail |
| Day14.CollectDefined | day14.py:11-25 | the table is built exactly when every line parses |
| Day14.CollectStep | day14.py:19 | one more parsed line overwrites the entry of its product and keeps every other entry |
| Day14.CollectLast | day14.py:19 | the products with a reaction are exactly those of the lines, and a product's reaction is that of its last line |
| Day14.IntStrPlain | day14.py:17-22 | a written number holds no space, comma or `=` |
| Day14.ItemParses | day14.py:22-23 | a written requirement reads back as itself |
| Day14.ItemsSplit | day14.py:21 | a written requirement list splits back into its written requirements |
| Day14.ParseItemsCons | day14.py:21-23 | requirements that each parse give the list of them |
| Day14.LineParses | day14.py:17-23 | a reaction written as `needs => quantity product` parses back to that product and reaction |
| Day14.Nanofactory.constructor | day14.py:7-8 | both balances start empty |
| Day14.Nanofactory.Produce | day14.py:28-50 | `produce` never lets consumption pass production; both balances only grow; higher-ranked chemicals are untouched; enough stock is only consumed; missing ORE is mined; a chemical without a reaction raises with nothing changed; a reaction adds its quantity to the product; with every need defined it never raises |
| Day14.Nanofactory.ProduceByReaction | day14.py:40-50 | running a reaction consumes its needs, adds its quantity to the product without consuming any of it, leaves higher-ranked chemicals untouched, and with every need defined never raises |
| Day14.Nanofactory.Supply | day14.py:40-48 | the `while` loop and the consumption take exactly `amount` of the need, only grow the balances, and never raise when the need is ORE or has a reaction in a closed table |
| Day15.WalkExtend | day15.py:71-74 | a walk extended by a step from a non-wall cell to a neighbour is still a walk |
| Day15.WitnessedTail | day15.py:62 | `popleft` leaves every remaining entry with its walk from the start |
| Day15.ExpandLayered | day15.py:62-74 | dequeuing the front entry and appending entries one label higher keeps the queue sorted by label within a span of one, and never lowers the last label |
| Day15.EnqueuedAppend | day15.py:72-74 | appending an unvisited neighbour with the walk extended to it keeps the loop's state and adds exactly that cell to the queued ones |
| Day15.EnqueueNeighbours | day15.py:71-74 | the loop only appends, each new entry is an unvisited neighbour one label higher, and every entry still comes with a walk from the start of its label's length; afterwards each of the four neighbours is visited or queued |
| Day15.QueueCells | day15.py:57-74 | every entry's cell is among the queue's cells |
| Day15.QueueCellsAppend | day15.py:74 | appending an entry adds exactly its cell to the queue's cells |
| Day15.CoveredPop | day15.py:62 | `popleft` removes at most the front cell from those queued |
| Day15.ClosedWall | day15.py:66-67 | skipping a wall keeps every neighbour of an expanded cell expanded, queued or a wall |
| Day15.ClosedExpand | day15.py:69-74 | expanding a cell, all of whose neighbours are then visited or queued, keeps every neighbour of an expanded cell expanded, queued or a wall |
| Day15.AdjacentStep | day15.py:71-72 | a neighbour is the cell one of the four offsets of `direction_map` leads to |
| Day15.WalkCovered | day15.py:60-74 | once the queue is empty, every cell of a walk from a covered start is expanded or a wall |
| Day15.NoWalkToOxygen | day15.py:60-74 | once the queue is empty, no walk from the start ends on an oxygen cell |
| Day15.SearchingWall | day15.py:62-67 | dequeuing and skipping a wall keeps the search invariant: walks witnessed, labels layered, expanded cells neither wall nor oxygen, their neighbours and the start covered |
| Day15.SearchingExpand | day15.py:62-74 | dequeuing an open cell, visiting it and enqueuing its unvisited neighbours keeps the search invariant |
| Day15.DistanceToOxygen | day15.py:55-74 | a found distance is at least 1 and is the length of a walk from the start to an oxygen cell; an emptied queue means that no walk from the start reaches an oxygen cell; an oxygen start gives 1 and a wall start finds nothing |
| Day15.OpenWalkExtend | day15.py:87-90 | an open walk extended by a step onto a non-wall neighbour is still an open walk |
| Day15.WitnessedAppend | day15.py:90 | an entry appended with its own open walk keeps every entry witnessed |
| Day15.OpenWitnessedTail | day15.py:84 | `popleft` leaves every remaining entry with its open walk from the oxygen cell |
| Day15.LabelsWalkedAppend | day15.py:90 | a label appended with its own open walk keeps every label walked |
| Day15.LabelsHaveWalks | day15.py:87-90 | every label enqueued is the number of steps of an open walk from the oxygen cell |
| Day15.LabelsStep | day15.py:84-90 | after one dequeue and its enqueues, every queued label is recorded and none recorded exceeds the last one queued |
| Day15.EnqueueOpen | day15.py:87-90 | the loop only appends, each new entry is an unvisited non-wall neighbour one minute later, and every entry still comes with an open walk from the oxygen cell, as does every label |
| Day15.MinutesToSpread | day15.py:77-92 | every label enqueued is the number of steps of an open walk from the oxygen cell, and the result is the largest of them, at least 0 |
| Day16.ParseDigits | day16.py:18 | the conversion succeeds exactly for all-digit strings, giving each character's digit value in order |
| Day16.JoinDigits | day16.py:36 | joining single digits writes one character per digit, in order |
| Day16.JoinParse | day16.py:18-36 | parsing a digit string and joining it back gives the string |
| Day16.Repeat | day16.py:15 | `[v] * n` is `n` copies of `v` |
| Day16.Pattern | day16.py:12-16 | the pattern for a position is four times as long as the position |
| Day16.PatternIndex | day16.py:14-15 | entry `k` of the pattern for `p` is base entry `k // p` |
| Day16.CoefFromPattern | day16.py:25-31 | the deque entry read for input `j`, after `j + 1` rotations, is `base_pattern[((j + 1) // (i + 1)) % 4]` |
| Day16.CoefBelowDiagonal | day16.py:25-31 | inputs before position `i` get coefficient 0 |
| Day16.CoefUpperBand | day16.py:25-31 | inputs from `i` to `2i` get coefficient 1 |
| Day16.Phase | day16.py:23-34 | a phase keeps the length and gives digits |
| Day16.Phases | day16.py:21-34 | any number of phases keeps the length, and digits stay digits |
| Day16.PhaseSumBelow | day16.py:28-31 | the part of a weighted sum below the diagonal is 0 |
| Day16.PhaseSumSuffix | day16.py:28-31 | weighted sums of two signals that agree from `i` on are equal |
| Day16.PhaseDependsOnSuffix | day16.py:24-32 | output digit `i` depends only on the inputs from `i` on |
| Day16.Rotation | day16.py:26-31 | `k` left rotations keep the length and bring entry `k mod n` to the front |
| Day16.RotateStep | day16.py:31 | one more `rotate(-1)` turns `k` rotations into `k + 1` |
| Day16.Patterns | day16.py:11-16 | the generation loop builds exactly the pattern of every position `1..len(signal)` |
| Day16.PhaseDigit | day16.py:25-32 | the rotating inner loop computes exactly output digit `i` of the phase |
| Day16.ApplyPhase | day16.py:23-34 | the loop over positions computes exactly one phase |
| Day16.Fft | day16.py:6-36 | `fft` fails exactly for a non-digit signal, and otherwise returns the joined digits after `phases` phases |
| Day16.PhasesStep | day16.py:21-34 | one more pass of the phase loop applies one more phase |
| Day16.FftNoPhase | day16.py:6-36 | with no phase `fft` gives back its digit string |
| Day16.OffsetPhase | day16.py:57-62 | a phase of `offset_fft` keeps the length |
| Day16.OffsetPhases | day16.py:44-64 | any number of those phases keeps the length |
| Day16.SuffixSumNonNegative | day16.py:49-55 | the running sums of digits are never negative, so `% 10` gives their last digit |
| Day16.OffsetPhaseDigits | day16.py:49-62 | a phase of digits gives digits and keeps the last digit |
| Day16.OffsetLastDigit | day16.py:44-64 | every phase of `offset_fft` keeps the last digit |
| Day16.UpperHalfAgrees | day16.py:23-62 | in the second half of a signal a phase of `fft` and a phase of `offset_fft` give the same digit |
| Day16.UpperHalfSum | day16.py:28-55 | the weighted sum in the second half is a plain sum of the inputs, the same as `offset_fft`'s running sum |
| Day16.OffsetApplyPhase | day16.py:48-64 | the two backwards loops compute exactly one `offset_fft` phase, leaving in `phased_sums` the suffix sums of the old digits |
| Day16.OffsetFft | day16.py:39-66 | `offset_fft` fails exactly for a non-digit signal, and otherwise returns the joined digits after `phases` such phases |
| Day16.OffsetPhasesStep | day16.py:44-64 | one more pass of the loop applies one more phase |
| Day17.RowMonotone | day17.py:17-23 | the row counter never goes back |
| Day17.SameRow | day17.py:17-23 | within one row the column grows by one per code and no newline lies between |
| Day17.AtDistinct | day17.py:17-23 | two codes, the first not a newline, are stored at different positions |
| Day17.FillKeys | day17.py:17-23 | the stored positions are exactly those of the non-newline codes |
| Day17.FillValue | day17.py:22 | each non-newline code is stored as its one-character string at its position |
| Day17.FillSize | day17.py:17-23 | there are as many stored cells as non-newline codes |
| Day17.Bounds | day17.py:25-40 | the ends of the sorted coordinates exist exactly for a non-empty grid, are coordinates of the grid, and enclose every key |
| Day17.ReadCodes | day17.py:15-23 | the loop fails exactly when some code is outside `chr`'s range, and otherwise stores exactly `Fill` of all the codes |
| Day17.PadRow | day17.py:30-31 | one printed row adds an empty string at each cell of the row not yet stored, and changes no stored cell |
| Day17.CreateGrid | day17.py:11-34 | `create_grid` fails exactly for an out-of-range code or a picture with no cell (`ys[0]` raises), and otherwise returns the stored codes padded over the whole box |
| Day17.CreateGridCells | day17.py:11-34 | every non-newline code is in the result as its character, and every non-empty cell comes from a code |
| Day17.CreateGridCount | day17.py:11-34 | the result has as many non-empty cells as there are non-newline codes |
| Day17.ScanRow | day17.py:44-52 | the inner loop appends exactly the intersections of the row, left to right |
| Day17.AlignmentSum | day17.py:37-54 | `alignment_paremeter_sum` computes exactly `AlignmentSpec`, failing on an empty grid |
| Day17.RowHitsMembers | day17.py:44-52 | a row's hits are exactly its intersections in the column range |
| Day17.HitsMembers | day17.py:43-52 | the hits are exactly the intersections in the row and column ranges |
| Day17.IntersectionInside | day17.py:45-51 | an intersection has scaffold on all four sides, so it lies strictly inside the box |
| Day17.ScannedHitsMembers | day17.py:43-52 | as written, the scan finds exactly the intersections off the last interior row and column |
| Day17.InteriorHitsMembers | day17.py:43-52 | with the ranges ending at `ys[-1]` and `xs[-1]`, the scan finds every intersection and nothing else |
| Day17.PlusBounds | day17.py:39-40 | the plus-shaped picture spans 0 to 2 on both axes |
| Day17.PlusMissed | day17.py:43-54 | the plus-shaped picture has an intersection at (1, 1), the sum as written is 0, and the corrected sum is 1 |
| Numbers.Abs | day3.py:45 | `abs` is the value or its negation, never negative |
| Numbers.Sign | day12.py:71-90 | the sign is -1, 0 or 1 and agrees with the value's sign |
| Numbers.GcdDivides | day10.py:25 | `math.gcd` divides both arguments, and is 0 exactly when both are 0 |
| Numbers.GcdGreatest | day10.py:25 | every common divisor divides `math.gcd` |
| Numbers.NatGcdDivides | day10.py:25 | Euclid's gcd divides both arguments |
| Numbers.NatGcdGreatest | day10.py:25 | every common divisor divides Euclid's gcd |
| Numbers.SumAppend | day1.py:21-24 | `sum` of a concatenation is the sum of the parts |
| Numbers.Least | day3.py:44-50 | `sorted(values)[0]` fails exactly for no values and is the least value |
| Numbers.Greatest | day17.py:26-40 | `sorted(values)[-1]` fails exactly for no values and is the greatest value |
| Decimal.DigitValue | day16.py:18 | a digit character reads as a digit below 10 whose character is itself |
| Decimal.NatStr | day4.py:13 | `str(n)` of a natural is a non-empty string of digits |
| Decimal.IntStr | day4.py:13 | `str(n)` is non-empty |
| Decimal.NatStrValue | day4.py:13 | the digits of `str(n)` denote `n` |
| Decimal.ParseIntStr | day4.py:13 | `int(str(n)) == n` for every integer |
| Decimal.NatStrLength | day4.py:15 | `str(n)` has exactly as many characters as `n` has decimal digits |
| Decimal.NatStrDigit | day5.py:30-32 | character `k` from the end of `str(n)` is the digit `n // 10**k % 10` |
| Decimal.HighDigitZero | day5.py:31 | the digits above the length of `str(n)` are 0, so zero padding gives the same modes |

## Left out

- File reading, `print`, the grid printing of days 8, 11, 13 and 17, `draw_grid` of day 15, `os.system`, `time.sleep` and `sys.setrecursionlimit`: these are input and output only.
- The `__main__` blocks and their `assert`s on the puzzle answers: they depend on input files that are not part of this model.
- Python's negative list indices: an address below 0 is a fault in the model (`Vm.AddressOutOfRange`). In Python, `memory[-1]` would read the last cell.
- The `IntcodeException` branches: they cannot be reached, because converting the cell to an `Opcode` (or `Instruction`) already rejects any value outside the enumeration. That conversion's `ValueError` is `Vm.Undecodable`.
- day7.py's `itertools.permutations`: the phase-setting sequences are a parameter of `Day7.ThrusterSignals` and `Day7.MaxThrusterSignal`.
- day7.py's `max` over part two's signals: this loop is not modelled. `Day7.FeedbackLoop` gives the signal for one sequence.
- Vm.Machine.Execute, Vm.Run, Day7.Machine.Execute, Day5.Execute and Day2.Execute: at most `fuel` instructions are executed. A run that has not halted when the fuel is spent ends as `Vm.Outcome.OutOfFuel`.
- Day7.FeedbackLoop: at most `rounds` passes of the feedback loop are modelled.
- Day15.DistanceToOxygen: at most `fuel` dequeues. A found distance is proved to be the length of a walk from the start to an oxygen cell, and `Unreachable` to mean that no walk reaches one. That the found distance is the shortest such walk is not proved.
- Day15.MinutesToSpread: at most `fuel` dequeues. Every label enqueued is proved to be the length of an open walk from the oxygen cell, and the result the largest of them. That the result is the largest shortest-walk distance, and that every open cell reachable from the oxygen cell is enqueued, are not proved.
- day15.py's `explore` and day11.py's `paint_panels`: these drive an Intcode program whose behaviour depends on the puzzle input. day15.py also builds its machine with a `wait_for_input` flag that is not part of `vm.py`.
- The `defaultdict` lookups that insert a key: the day 15 grid, the day 8 counts and the lookups of day17.py's `alignment_paremeter_sum`. Each is modelled as a read that leaves the map unchanged, which does not change what the callers compute. The keys that `create_grid`'s printing loop inserts (day17.py:28-31) are modelled: `Day17.PadRow` and `Day17.CreateGrid` add them.
- day10.py's `magnitude`, `group_asteroids` and the `atan2` ordering of part two: floating point.
- day10.py's `max(visibility, ...)` selection: it is not modelled. `Day10.CountVisible` gives the count for one asteroid.
- day12.py's regular-expression parsing: the moons are given as values.
- day12.py's part-two cycle detection: it keys states by concatenated strings and runs an unbounded loop.
- Day12.Lcm2Multiple and Day12.LcmMultiple: the result is proved to be a common multiple. That it is the least one is not proved.
- Vm.Machine.constructor: the machine holds copies of `memory` and `inputs`, while vm.py's dataclass (vm.py:39-47) keeps the caller's two lists. So `execute` rewriting the caller's `program` in place (vm.py:63, :69, :73, :97, :103) is not modelled: day11.py:94 and :98 hand the same list to two runs of `paint_panels`, and the second starts from the memory the first left behind. Nor are appends to the caller's list that feed a running machine (day11.py:63-64, :83). Callers that pass fresh lists, such as day7.py:135 and :147, see no difference.
- day8.py's `composite`: it is a value. In the source, that list is `layers[-1].rows`, so compositing rewrites the last layer; this aliasing is not modelled.
- day6.py's transfer count in the `__main__` block (day6.py:84-87): it is not modelled. The depths it subtracts are the ones `Day6.OrbitTable.OrbitChecksum` assigns, as `Day6.AssignIsOverride` states.
- day6.py's shared `OrbitObject`s: they are a map from names to child names, unfolded into `Orbit` trees.
- Day14.Nanofactory.Produce: it requires the reactions to be ranked, for termination. Ranking also demands that every reaction quantity and every need amount be positive. day14.py accepts a need of 0 units, for which `produce` does nothing and ends, but the model does not cover such tables. The balances of chemicals ranked below `chemical` are only bounded, not given exactly.
- Decimal.ParseInt: the accepted strings are an optional sign and ASCII digits. The whitespace, underscores and non-ASCII digits that Python's `int` also accepts are not modelled.
- day3.py's `int(path[1:])`: path items are given as a direction and an integer, so their parsing is not modelled.
- day9.py and day19.py are not part of this model.

## Findings

| source | as written | input that shows it | evidently intended | confidence | as-written member | corrected member |
|---|---|---|---|---|---|---|
| day17.py:43-44 | `range(ys[0] + 1, ys[-1] - 1)` and `range(xs[0] + 1, xs[-1] - 1)` stop one short, so the last interior row and column are never scanned | the picture `.#.` / `###` / `.#.` has one intersection, at (1, 1), and the sum as written is 0 | `range(ys[0] + 1, ys[-1])` and `range(xs[0] + 1, xs[-1])`: every intersection, sum 1 for that picture | not executed | Day17.PlusMissed | Day17.InteriorHitsMembers |
