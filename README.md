# mini_evm in Dafny

A model of `mini_evm`, a small stack-based smart-contract interpreter for
teaching.

A *world* maps addresses to *contracts*. Each contract has a fixed list of
text instructions and a key-to-integer storage. A *VM* runs transactions
against the world. A transaction:

- takes a snapshot of every contract's storage;
- runs the target contract's code in a *frame*, with a gas budget and the
  input arguments on the stack;
- commits the snapshot back to the world only when the frame returns.

Inside a frame, every non-blank line is charged before it executes. The
charge debits the opcode's cost (unknown names cost 1), counts the opcode,
and fails the frame with "out of gas" once the remaining gas drops below
zero. The opcodes are:

- `PUSH n` and `POP`;
- the arithmetic `ADD SUB MUL DIV`, where `DIV` is Python's floor division
  and a zero divisor is an error;
- `LOAD k` and `STORE k`, with the aliases `SLOAD` and `SSTORE`;
- `LOG`;
- `CALL addr gas nargs`, which reserves `gas` for a nested frame, passes it
  the top `nargs` values in their original order, refunds what it did not
  use, merges its opcode counts and records a call event;
- `RETURN`.

Falling off the end of the code returns the top of the stack, or 0 when the
stack is empty.

The project has seven modules:

| module | file | contents |
|---|---|---|
| `VmOps` | `ops.dfy` | Instruction text and its decoding: upper-casing, Python `int()` on tokens, operand checks, the cost table. |
| `VmSemantics` | `semantics.dfy` | The reference semantics as functions. `Exec` covers one non-CALL opcode. `RunFrame`/`Loop`/`Dispatch` cover a frame. `CallStep` covers CALL. `Transact` covers a whole transaction. |
| `VmWorld` | `world.dfy` | `Contract` and `World` as classes whose fields are updated in place: deploy, lookup, commit. |
| `VmMachine` | `machine.dfy` | The interpreter as a `VM` class with imperative methods. Each method is proved equal to the reference semantics. |
| `VmProperties` | `properties.dfy` | Properties of the semantics: charging, arithmetic, storage, RETURN, CALL, call-event bounds, atomicity. |
| `DemoScenarios` | `scenarios.dfy` | The two demonstration contracts and the four demonstration transactions, computed exactly. |
| `VmDemo` | `demo.dfy` | The demonstration script run on the imperative interpreter. |

Each code line is decoded once, up front, into a `Decoded` value (blank, or
an upper-cased name with its meaning). The frame then charges and runs that
value. This is equivalent to the source, which splits and upper-cases the
line at the moment it reaches it. Decoding has no effect, and a line that
cannot be decoded fails only when it is executed. `ParseShow` and
`DecodeEncode` prove that decoding reads back the text of any well-formed
opcode.

## Model

| member | source | states |
|---|---|---|
| VmOps.UpperOfCapitals | src/vm.py:104 | Upper-casing leaves an all-capitals opcode name unchanged. |
| VmOps.ParseShow | src/vm.py:110 | `int()` of an integer's decimal text gives that integer back, negative values included. |
| VmOps.DecodeOp | src/vm.py:107-192 | Only the name CALL decodes to a call, and only the name RETURN decodes to a return. |
| VmOps.DecodeOpFaults | src/vm.py:107-192 | A line is malformed exactly when PUSH, LOAD, SLOAD, STORE or SSTORE has no operand or CALL has fewer than three. It has a bad operand exactly when `int()` rejects the PUSH value or either CALL amount. Its name is unknown exactly when it is neither in the cost table nor SLOAD or SSTORE. |
| VmOps.Decode | src/vm.py:99-102 | A line decodes as blank, and is skipped, exactly when it has no tokens. |
| VmOps.Mnemonic | src/vm.py:37-43 | Every well-formed opcode's canonical name is in capitals, so it is charged under that name. |
| VmOps.DecodeCapitals | src/vm.py:103-104 | A line whose first token is already in capitals is charged under that token and decoded from the rest. |
| VmOps.DecodeEncode | src/vm.py:103-155 | Decoding the text of any well-formed opcode gives back that opcode and its canonical name. |
| VmOps.Cost | src/vm.py:92 | A cost is at most 20, and a name not in the cost table costs 1. |
| VmSemantics.Merge | src/vm.py:172-174 | Merging a child frame's counts adds them key by key; the keys are the union. |
| VmSemantics.Charge | src/vm.py:90-96 | Charging debits exactly the cost of the name, so the remaining gas never rises. |
| VmSemantics.FloorDiv | src/vm.py:127-130 | Division rounds toward negative infinity for either sign of divisor. |
| VmSemantics.Apply | src/vm.py:116-130 | Arithmetic fails exactly for DIV by zero. |
| VmSemantics.Exec | src/vm.py:107-148 | A non-CALL opcode underflows exactly when the stack is shorter than its pops; a malformed line faults; only RETURN halts. Otherwise the untouched part of the stack is kept, only STORE writes storage (the popped value at its key), and only LOG adds a trace entry. |
| VmSemantics.Compile | src/vm.py:98-104 | The program has one decoded line per code line, in order. |
| VmSemantics.CompileAll | src/vm.py:79-82 | Every deployed contract's code is decoded, and nothing else. |
| VmSemantics.RunFrame | src/vm.py:78-97 | A frame keeps the set of contracts in the snapshot, only appends to the trace, and on return reports a gas use between 0 and the non-negative part of its budget (a negative budget over code that charges nothing reports 0). |
| VmSemantics.Loop | src/vm.py:98-106 | Running from any line only appends to the trace, and the gas reported on return is at least what was already spent. |
| VmSemantics.Dispatch | src/vm.py:106-193 | After the charge, running the decoded opcode reports at most the budget as gas used, and at least what was spent. |
| VmSemantics.PopOrderNext | src/vm.py:161 | Popping one more argument appends the next value down the stack. |
| VmSemantics.CallStep | src/vm.py:149-185 | A resumed CALL leaves the caller between 0 and its previous remaining gas. A child failure aborts the caller with a failure. Both keep the snapshot's contract set and extend the trace. |
| VmSemantics.Settle | src/vm.py:54-64 | The transaction succeeds exactly when the root frame returns, and then commits the frame's snapshot. Every VM error in the root frame gives exactly a failed result with no return value, the whole gas limit charged, empty counts, the frame's call trace and storage untouched. A ValueError escapes, and storage is unchanged unless the result is success. |
| VmSemantics.Transact | src/vm.py:48-76 | A transaction keeps the set of contracts, succeeds exactly when its root frame returns, and leaves storage untouched unless it succeeds. |
| VmWorld.Contract.constructor | src/vm.py:18-22 | A new contract holds its address and code, with empty storage. |
| VmWorld.World.constructor | src/vm.py:24-26 | A new world has no contracts. |
| VmWorld.World.Codes | src/vm.py:26 | The code view has one entry per deployed address. |
| VmWorld.World.Storages | src/vm.py:50 | The storage snapshot has one entry per deployed address. |
| VmWorld.World.GetContract | src/vm.py:33-34 | Lookup finds a contract exactly when the address is deployed, and it is the one stored at that address. |
| VmWorld.World.Deploy | src/vm.py:28-31 | Deploy succeeds exactly when the address is unused. On success it adds one fresh contract with this code and empty storage and changes nothing else; otherwise the world is unchanged. |
| VmWorld.World.Commit | src/vm.py:57-58 | Commit writes the snapshot back to every contract's storage and keeps the contract set. |
| VmMachine.TxState.constructor | src/vm.py:50-51 | A transaction starts from the storage snapshot with an empty call trace. |
| VmMachine.VM.constructor | src/vm.py:45-46 | The VM runs against the world it is given. |
| VmMachine.VM.ExecuteTransaction | src/vm.py:48-76 | The result and the world's new storages are exactly `Transact` of the world before, with the contract set unchanged. |
| VmMachine.VM.RunRoot | src/vm.py:49-55 | The root frame's outcome, final snapshot and trace are exactly `RunFrame` on the world's snapshot with an empty trace. |
| VmMachine.VM.ExecContractFrame | src/vm.py:78-197 | The imperative frame loop produces exactly `RunFrame`'s outcome, snapshot and trace. |
| VmMachine.VM.ExecLine | src/vm.py:103-193 | Charging and executing one decoded line continues as `Loop` from the next line, or ends as `Loop` does (return or fault). |
| VmMachine.VM.ExecCall | src/vm.py:149-185 | The imperative CALL, with its nested frame, matches `CallStep`, both when it resumes and when it aborts. |
| VmMachine.VM.PopArgs | src/vm.py:159-161 | Popping the arguments one by one and reversing them gives the reversed pop order, and leaves the stack minus its top `n` values. |
| VmMachine.VM.ExecInstruction | src/vm.py:107-148 | Executing a non-CALL opcode updates the stack, this contract's snapshot entry and the trace as `Exec` says, and changes nothing on a halt or fault. |
| VmProperties.CompileAssembled | src/vm.py:98-104 | Decoding the text of a list of well-formed opcodes gives those opcodes under their canonical names. |
| VmProperties.BlankLineSkipped | src/vm.py:99-102 | A blank line is skipped with no charge and no other effect. |
| VmProperties.ChargedFirst | src/vm.py:104-106 | Every non-blank line is charged under its upper-cased name before it runs. The frame fails out of gas exactly when the remaining gas is below the cost, after the debit; otherwise the decoded opcode runs with the debited meter. |
| VmProperties.LineFaults | src/vm.py:106-192 | A rejected line is charged first and then ends the frame, leaving the snapshot and trace as they were. A missing operand is a VM error ("missing argument"), an operand `int()` rejects is a ValueError, and an unknown name is a VM error ("Unknown op"). |
| VmProperties.RuntimeFaults | src/vm.py:112-148 | After the charge, a well-formed opcode other than CALL that finds fewer values than it pops (POP, STORE and LOG one, arithmetic two) ends the frame with a stack underflow, and DIV with a zero top value ends it with a division by zero. Either way the staged storage and the trace are those from before the line. |
| VmProperties.TransactRejectsLine | src/vm.py:54-64 | When the target's first line is malformed or names an unknown opcode, the transaction fails with no value, the whole limit charged, no counts and an empty trace. When an operand is rejected by `int()`, the ValueError escapes. Neither changes storage. |
| VmProperties.ChargeCounts | src/vm.py:94 | Charging adds one to the name's count and leaves every other count unchanged. |
| VmProperties.AliasesCostOne | src/vm.py:131-143 | For every operand list, SLOAD decodes as LOAD and SSTORE as STORE. They cost 1, because they are not in the cost table, where LOAD costs 5 and STORE 20. |
| VmProperties.FloorDivIsPythonFloor | src/vm.py:130 | DIV is Python's `//`: the floor of the exact quotient, for every sign of the operands. |
| VmProperties.FloorDivExamples | src/vm.py:130 | 7//2 = 3, -7//2 = -4, 7//-2 = -4, -7//-2 = 3; the last two differ from Dafny's Euclidean division. |
| VmProperties.ArithmeticSpec | src/vm.py:116-130 | Arithmetic needs two operands and computes `b op a` with `a` the top. The result replaces both operands and storage is unchanged; DIV by zero is an error. |
| VmProperties.LoadUnstored | src/vm.py:131-135 | Loading a key never stored pushes 0. |
| VmProperties.StoreThenLoad | src/vm.py:136-143 | STORE on an empty stack underflows. Otherwise it pops the value into the key, leaves every other key unchanged, and a following LOAD of the key pushes that value back. |
| VmProperties.FrameReturnsTop | src/vm.py:186-197 | RETURN, and falling off the end, return the top of the stack (0 if empty). Gas used is the limit minus what remains. RETURN is counted; falling off adds nothing, and needs no gas left, so a frame with a negative budget may fall off. Snapshot and trace are unchanged. |
| VmProperties.PoppedArgsInOrder | src/vm.py:161 | The arguments passed by CALL are the top `nargs` stack values in their original order. |
| VmProperties.CallRefused | src/vm.py:156-160 | CALL aborts with "insufficient gas" when the remaining gas is below the amount, and with "not enough args" when the stack is too short. Neither changes the snapshot or the trace. |
| VmProperties.CallSucceeds | src/vm.py:161-185 | An accepted CALL runs the callee on the top arguments with the amount as its budget. A child failure propagates. A child return charges only the child's gas used (reserve minus refund), replaces the arguments with the return value, keeps the child's storage writes, adds its counts and records the call event after the child's own events. |
| VmProperties.CallAbortEndsFrame | src/vm.py:149-169 | A charged CALL line whose step aborts, by a refused guard or a failing child, ends the calling frame with exactly the aborted end, which is a failure; no later line runs. |
| VmProperties.ChildFailureEndsFrame | src/vm.py:165-169 | When the guards pass and the child frame fails, the caller's frame ends with the child's own end: the same fault, and the staged storage and trace as the child left them. Applied at each level, a failure at any depth reaches the root frame. |
| VmProperties.RunFrameSound | src/vm.py:178-185 | Every call event a frame records has a gas use between 0 and the non-negative part of the gas provided. |
| VmProperties.LoopSound | src/vm.py:98-193 | Running from any line records only call events whose gas use is within their bound. |
| VmProperties.DispatchSound | src/vm.py:106-193 | Running one charged opcode records only call events whose gas use is within their bound. |
| VmProperties.CallStepSound | src/vm.py:163-185 | A CALL records an event whose gas use is within its bound. |
| VmProperties.DecodeNegativeCall | src/vm.py:151-155 | `CALL B -5 0` decodes to a call with a negative gas amount: `int()` accepts the sign. |
| VmProperties.NegativeCallBudget | src/vm.py:156-171 | `CALL B -5 0` passes the gas guard. The child runs with budget -5 and returns, using 0 gas. The call event then reports more gas used than provided. |
| VmProperties.TransactMissingContract | src/vm.py:79-80 | A transaction to an undeployed address fails: no return value, full gas limit charged, no counts, storage untouched. |
| VmProperties.DivByZeroFailsTransaction | src/vm.py:54-64 | A transaction whose target starts with DIV and whose arguments leave a zero on top fails with no value, the whole limit charged, no counts and an empty trace, and leaves every storage unchanged. |
| VmProperties.TransactAtomic | src/vm.py:54-64 | Success is exactly a returned root frame. It then commits the frame's storage and reports its value, gas use (between 0 and the non-negative part of the limit), counts and trace. Every VM error in the root frame gives exactly a failed result: no value, the full limit, no counts, the frame's trace kept, nothing committed. Exactly a ValueError escapes, committing nothing. The call trace of a completed transaction is sound. |
| DemoScenarios.AssembledDemo | src/demo_mini_evm.py:17-34 | The code of A and B is the text of the opcode lists `OpsA` and `OpsB`. |
| DemoScenarios.DecodeDemo | src/demo_mini_evm.py:17-34 | Decoding the deployed code of A and B gives the programs `DemoProgs`. |
| DemoScenarios.DemoShapes | src/demo_mini_evm.py:17-34 | Exactly A and B are deployed. A decodes to LOAD, ADD, STORE, LOAD, RETURN; B to PUSH 2, CALL A 200 1, PUSH 10, MUL, STORE, LOAD, RETURN. |
| DemoScenarios.StepPush | src/vm.py:107-111 | A PUSH line costs 1, pushes its value and moves to the next line. |
| DemoScenarios.StepLog | src/vm.py:144-148 | A LOG line costs 1, pops the top value, appends a log event naming the contract and that value, and moves to the next line; storage is untouched. |
| DemoScenarios.StepLoad | src/vm.py:131-135 | A LOAD line costs 5, pushes the stored value and moves on. |
| DemoScenarios.StepArith | src/vm.py:116-126 | ADD (cost 3) and MUL (cost 5) replace the top two values by their sum or product and move on. |
| DemoScenarios.StepStore | src/vm.py:136-143 | A STORE line costs 20, pops the top into the key and moves on. |
| DemoScenarios.StepReturn | src/vm.py:186-190 | A RETURN line ends the frame with the top of the stack and the gas spent so far, RETURN counted. |
| DemoScenarios.CallReturns | src/vm.py:161-185 | A CALL whose child returns resumes the caller with the child's gas use charged, the return value pushed, the counts merged and the call event recorded. |
| DemoScenarios.StepCall | src/vm.py:149-185 | A CALL line costs 10, then continues from the next line in the state the call step resumes with. |
| DemoScenarios.CountsA | src/demo_mini_evm.py:17-23 | One run of A counts LOAD twice and ADD, STORE and RETURN once each. |
| DemoScenarios.RunA | src/demo_mini_evm.py:17-23 | With argument x and any gas limit of at least 33, A adds x to its counter, stores the sum and returns it. It uses exactly 33 gas and records no events. |
| DemoScenarios.CountsB | src/demo_mini_evm.py:26-34 | One run of B, including its call to A, counts PUSH 2, CALL 1, LOAD 3, ADD 1, STORE 2, MUL 1, RETURN 2. |
| DemoScenarios.CallAFromB | src/demo_mini_evm.py:28 | B's call to A with 200 gas and argument 2 returns the counter plus 2. It charges B only the 33 gas A used, writes A's counter, merges A's counts and records the call event. |
| DemoScenarios.RunB | src/demo_mini_evm.py:26-34 | With a gas limit of at least 211, B calls A with 2, stores ten times A's result as myvalue and returns it. It uses exactly 75 gas and records one call event (200 provided, 33 used). |
| DemoScenarios.TransactA | src/vm.py:48-76 | A transaction to A with argument x succeeds on any limit of at least 33, returning and committing counter + x. |
| DemoScenarios.TransactB | src/vm.py:48-76 | A transaction to B succeeds on any limit of at least 211: it returns 10 × (counter + 2), uses 75 gas, commits both contracts' writes and reports the call event. |
| DemoScenarios.TransactReturns | src/vm.py:54-59 | When the root frame returns, the transaction succeeds with the frame's value, gas, counts and trace, and commits its snapshot. |
| DemoScenarios.Put | src/vm.py:143 | Writing one key of one contract keeps the contract set, and that key then reads back the value. |
| DemoScenarios.Transaction1 | src/demo_mini_evm.py:44 | The first demonstration transaction (A, 500 gas, [7]) returns 7 for 33 gas and leaves counter = 7. |
| DemoScenarios.Transaction2 | src/demo_mini_evm.py:45 | The second (B, 800 gas) returns 90 for 75 gas. It records the call to A returning 9, and leaves counter = 9, myvalue = 90. |
| DemoScenarios.Transaction3 | src/demo_mini_evm.py:46 | The third (A, 300 gas, [3]) returns 12 for 33 gas and leaves counter = 12. |
| DemoScenarios.Transaction4 | src/demo_mini_evm.py:47 | The fourth (B, 800 gas) returns 140 for 75 gas. It records the call to A returning 14, and leaves counter = 14, myvalue = 140. |
| VmDemo.DeployDemo | src/demo_mini_evm.py:37-40 | Deploying A and B on a fresh world succeeds for both and gives both contracts empty storage; the VM runs on that world. |
| VmDemo.RunDemo | src/demo_mini_evm.py:43-55 | Running the four transactions on the imperative interpreter gives the four results above, in order, and the final storages. |

## Left out

- Wall-clock timing (`time.perf_counter`, `duration_s`): a clock is outside the model, so results carry no duration.
- The `caller` argument of `execute_transaction` and `_exec_contract_frame` is never read by the interpreter (call events use the frame's own address), so it is not modelled.
- Python `str.strip`/`str.split` and `str.upper`: a code line is given already split into tokens, and upper-casing covers ASCII letters only.
- Python `int()` is modelled for an optional sign, ASCII digits and single underscores between digits. Surrounding whitespace, non-ASCII digits and other forms are not accepted by the model.
- Any other text `int()` rejects raises ValueError, which is not caught by `execute_transaction`. The model reports it as the `Escaped` result rather than as an exception.
- Exception messages are modelled as `VmError` kinds, without their text.
- `defaultdict` against `dict` for opcode counts: counts are a map, and a missing name counts 0.
- The snapshot is a map from address to storage value. The source mutates the per-contract dictionaries in place through `local_storage`. Those dictionaries are never rebound during a transaction, so the map-valued model sees the same writes.
- `ret if ret is not None else 0` in CALL: a frame always returns an integer, so the `None` branch cannot occur.
- The demonstration's printing, JSON output and charts (src/demo_mini_evm.py from line 50 on) are output only and are not modelled.
- VmProperties.RunFrameSound: the bound is stated against the non-negative part of the gas provided, because a negative CALL amount makes a call event report more gas used than provided (VmProperties.NegativeCallBudget).
- VmWorld.World.Deploy: where the source raises ValueError for an address already in use, the model returns `false` and leaves the world unchanged.
- The Python recursion limit: each CALL nests one more `_exec_contract_frame` call (src/vm.py:166). Past the interpreter's recursion limit (1000 frames by default), Python raises RecursionError. The interpreter does not catch it, so it escapes and nothing is committed. The model has no depth limit: such a chain of calls completes in `RunFrame`.
- The `int()` digit limit: recent Python versions reject decimal literals longer than 4300 digits with ValueError (src/vm.py:110, 154-155). `ParseInt` accepts any length, so the model decodes such an operand where the source escapes.
