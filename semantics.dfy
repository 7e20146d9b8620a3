/** The interpreter as functions: what one frame of a contract computes from
    the code of every deployed contract, its gas budget, its initial stack,
    the staged storage of the transaction and the call trace so far.

    These functions are the specification the imperative interpreter in
    machine.dfy is proved against, and the object of the lemmas in
    properties.dfy and scenarios.dfy. */
module VmSemantics {
  import opened VmOps

  /** One contract's storage: key to integer, absent keys read as 0. */
  type Storage = map<string, int>

  /** The staged copy of every contract's storage, by address. */
  type Snapshot = map<string, Storage>

  /** How many times each (upper-cased) opcode name was charged. */
  type Counts = map<string, nat>

  /** The code of every deployed contract, by address. */
  type Codes = map<string, Code>

  /** An entry of the transaction-wide call trace. */
  datatype Event =
    | CallEvent(caller: string, callee: string, gasProvided: int, gasUsed: int, returned: int)
    | LogEvent(contract: string, value: int)

  /** The reasons a frame raises a VM execution error. */
  datatype VmError =
    | ContractNotFound
    | MalformedInstruction
    | StackUnderflow
    | DivisionByZero
    | UnknownOpcode
    | OutOfGas
    | InsufficientGasForCall
    | InsufficientArguments

  /** Error: a VM execution error, which aborts the transaction.
      ValueError: a non-integer operand, which int() raises and which the
      interpreter does not catch. */
  datatype Fault = Error(kind: VmError) | ValueError

  /** How a frame ends: the returned value, the gas it used and its opcode
      counts (including those of nested calls), or the fault. */
  datatype Outcome = Returned(ret: int, gasUsed: int, counts: Counts) | Failed(fault: Fault)

  /** A frame's outcome together with the staged storage and the call trace
      as the frame leaves them (on failure too). */
  datatype FrameEnd = FrameEnd(outcome: Outcome, snap: Snapshot, trace: seq<Event>)

  function Max0(x: int): nat {
    if x < 0 then 0 else x
  }

  /** A storage read: the stored value, or 0 for a key never stored. */
  function Lookup(store: Storage, key: string): int {
    if key in store then store[key] else 0
  }

  /** The value RETURN yields: the top of the stack, or 0 when it is empty. */
  function Top(stack: seq<int>): int {
    if |stack| == 0 then 0 else stack[|stack| - 1]
  }

  function Count(counts: Counts, name: string): nat {
    if name in counts then counts[name] else 0
  }

  /** Adds a nested frame's opcode counts into its caller's. */
  function Merge(a: Counts, b: Counts): (m: Counts)
    ensures m.Keys == a.Keys + b.Keys
    ensures forall k :: Count(m, k) == Count(a, k) + Count(b, k)
  {
    map k | k in a.Keys + b.Keys :: Count(a, k) + Count(b, k)
  }

  // ---------------------------------------------------------------------
  // Gas charging
  // ---------------------------------------------------------------------

  /** The frame's remaining gas and opcode counts. */
  datatype Meter = Meter(gas: int, counts: Counts)

  /** One more use of an opcode name. */
  function Tick(counts: Counts, name: string): Counts {
    counts[name := Count(counts, name) + 1]
  }

  /** Charging an opcode name: the remaining gas drops by its cost and its
      counter goes up by one.  The caller fails the frame with OutOfGas when
      the new remaining gas is below zero. */
  function Charge(gas: int, counts: Counts, name: string): (m: Meter)
    ensures m.gas == gas - Cost(name) && m.gas <= gas
  {
    Meter(gas - Cost(name), Tick(counts, name))
  }

  // ---------------------------------------------------------------------
  // Arithmetic
  // ---------------------------------------------------------------------

  /** Python's b // a: the quotient rounded toward minus infinity. */
  function FloorDiv(b: int, a: int): (q: int)
    requires a != 0
    ensures a > 0 ==> a * q <= b < a * q + a
    ensures a < 0 ==> a * q + a < b <= a * q
  {
    if a > 0 || b % a == 0 then b / a else b / a - 1
  }

  /** The value ADD, SUB, MUL or DIV leaves for operands b (below) and a
      (on top); None when DIV would divide by zero. */
  function Apply(kind: ArithKind, b: int, a: int): (r: Option<int>)
    ensures r.None? <==> kind == Div && a == 0
  {
    match kind
    case Add => Some(b + a)
    case Sub => Some(b - a)
    case Mul => Some(b * a)
    case Div => if a == 0 then None else Some(FloorDiv(b, a))
  }

  // ---------------------------------------------------------------------
  // One instruction other than CALL
  // ---------------------------------------------------------------------

  /** How many values an opcode takes from the stack, and how many it puts
      back, when it succeeds. */
  function Pops(op: Op): nat {
    match op
    case Pop => 1
    case Arith(_) => 2
    case Store(_) => 1
    case Log => 1
    case _ => 0
  }

  function Pushes(op: Op): nat {
    match op
    case Push(_) => 1
    case Arith(_) => 1
    case Load(_) => 1
    case _ => 0
  }

  /** The result of one instruction: the next stack, the contract's storage
      and the trace entries it adds; or the frame returns; or it faults. */
  datatype Step = Next(stack: seq<int>, store: Storage, logged: seq<Event>) | Halt(ret: int) | Stop(fault: Fault)

  function Exec(op: Op, addr: string, stack: seq<int>, store: Storage): (s: Step)
    requires !op.Call?
    // underflow is exactly a stack shorter than what the opcode takes
    ensures op.WellFormed() ==> (s == Stop(Error(StackUnderflow)) <==> |stack| < Pops(op))
    ensures !op.WellFormed() ==> s.Stop?
    ensures s.Halt? <==> op.Return?
    // on success: the values below the operands stay, the depth changes by the stack effect
    ensures s.Next? ==>
      |stack| >= Pops(op) && |s.stack| == |stack| - Pops(op) + Pushes(op) &&
      s.stack[..|stack| - Pops(op)] == stack[..|stack| - Pops(op)]
    // only STORE writes, and only its own key; only LOG adds to the trace
    ensures s.Next? && !op.Store? ==> s.store == store
    ensures s.Next? && op.Store? ==> s.store == store[op.key := stack[|stack| - 1]]
    ensures s.Next? ==> s.logged == if op.Log? then [LogEvent(addr, stack[|stack| - 1])] else []
  {
    match op
    case Push(v) => Next(stack + [v], store, [])
    case Pop =>
      if |stack| == 0 then Stop(Error(StackUnderflow))
      else Next(stack[..|stack| - 1], store, [])
    case Arith(kind) =>
      if |stack| < 2 then Stop(Error(StackUnderflow))
      else
        var a, b := stack[|stack| - 1], stack[|stack| - 2];
        (match Apply(kind, b, a)
         case None => Stop(Error(DivisionByZero))
         case Some(v) => Next(stack[..|stack| - 2] + [v], store, []))
    case Load(key) => Next(stack + [Lookup(store, key)], store, [])
    case Store(key) =>
      if |stack| == 0 then Stop(Error(StackUnderflow))
      else Next(stack[..|stack| - 1], store[key := stack[|stack| - 1]], [])
    case Log =>
      if |stack| == 0 then Stop(Error(StackUnderflow))
      else Next(stack[..|stack| - 1], store, [LogEvent(addr, stack[|stack| - 1])])
    case Return => Halt(Top(stack))
    case Malformed => Stop(Error(MalformedInstruction))
    case BadOperand => Stop(ValueError)
    case Unknown => Stop(Error(UnknownOpcode))
  }

  // ---------------------------------------------------------------------
  // Frames
  // ---------------------------------------------------------------------

  /** A contract's code, decoded line by line.  Decoding is pure and looks
      at one line at a time, so a frame may as well decode ahead. */
  type Program = seq<Line>

  /** The decoded code of every deployed contract, by address. */
  type Programs = map<string, Program>

  function Compile(code: Code): (p: Program)
    ensures |p| == |code| && forall i | 0 <= i < |code| :: p[i] == Decode(code[i])
  {
    seq(|code|, i requires 0 <= i < |code| => Decode(code[i]))
  }

  function CompileAll(codes: Codes): (progs: Programs)
    ensures progs.Keys == codes.Keys && forall a | a in codes :: progs[a] == Compile(codes[a])
  {
    map a | a in codes :: Compile(codes[a])
  }

  /** One frame of contract addr with budget gasLimit and initial stack args.
      A completed frame used between 0 and its budget (0 when the budget is
      negative: such a frame can only complete without charging anything).
      It never adds or removes staged contracts and only appends to the
      trace. */
  function RunFrame(progs: Programs, addr: string, gasLimit: int, args: seq<int>, snap: Snapshot, trace: seq<Event>): (e: FrameEnd)
    requires progs.Keys <= snap.Keys
    ensures e.snap.Keys == snap.Keys
    ensures trace <= e.trace
    ensures e.outcome.Returned? ==> 0 <= e.outcome.gasUsed <= Max0(gasLimit)
    decreases Max0(gasLimit), if addr in progs then |progs[addr]| + 1 else 0, 0
  {
    if addr !in progs then FrameEnd(Failed(Error(ContractNotFound)), snap, trace)
    else Loop(progs, addr, gasLimit, 0, gasLimit, args, map[], snap, trace)
  }

  /** The rest of a frame from instruction ip, with gas remaining and the
      stack and counts so far.  Running off the end of the code returns the
      top of the stack.  Blank lines are skipped without charge; any other
      line is charged before it does anything. */
  function Loop(progs: Programs, addr: string, gasLimit: int, ip: nat, gas: int, stack: seq<int>,
                counts: Counts, snap: Snapshot, trace: seq<Event>): (e: FrameEnd)
    requires addr in progs && ip <= |progs[addr]| && progs.Keys <= snap.Keys
    requires gas <= gasLimit
    ensures e.snap.Keys == snap.Keys
    ensures trace <= e.trace
    ensures e.outcome.Returned? ==>
      gasLimit - gas <= e.outcome.gasUsed &&
      (e.outcome.gasUsed <= gasLimit || e.outcome.gasUsed == gasLimit - gas)
    decreases Max0(gasLimit), |progs[addr]| - ip, 1
  {
    if ip == |progs[addr]| then FrameEnd(Returned(Top(stack), gasLimit - gas, counts), snap, trace)
    else match progs[addr][ip]
      case Blank => Loop(progs, addr, gasLimit, ip + 1, gas, stack, counts, snap, trace)
      case Instruction(name, op) =>
        var m := Charge(gas, counts, name);
        if m.gas < 0 then FrameEnd(Failed(Error(OutOfGas)), snap, trace)
        else Dispatch(progs, addr, gasLimit, ip, op, m, stack, snap, trace)
  }

  /** The effect of the charged instruction ip, then the rest of the frame. */
  function Dispatch(progs: Programs, addr: string, gasLimit: int, ip: nat, op: Op, m: Meter,
                    stack: seq<int>, snap: Snapshot, trace: seq<Event>): (e: FrameEnd)
    requires addr in progs && ip < |progs[addr]| && progs.Keys <= snap.Keys
    requires 0 <= m.gas <= gasLimit
    requires op.Call? ==> m.gas < gasLimit
    ensures e.snap.Keys == snap.Keys
    ensures trace <= e.trace
    ensures e.outcome.Returned? ==> gasLimit - m.gas <= e.outcome.gasUsed <= gasLimit
    decreases Max0(gasLimit), |progs[addr]| - ip, 0
  {
    if op.Call? then
      var c := CallStep(progs, addr, op.callee, op.gas, op.nargs, m.gas, stack, m.counts, snap, trace);
      if c.Aborted? then c.end
      else Loop(progs, addr, gasLimit, ip + 1, c.gas, c.stack, c.counts, c.snap, c.trace)
    else
      var s := Exec(op, addr, stack, snap[addr]);
      if s.Next? then
        Loop(progs, addr, gasLimit, ip + 1, m.gas, s.stack, m.counts, snap[addr := s.store], trace + s.logged)
      else if s.Halt? then FrameEnd(Returned(s.ret, gasLimit - m.gas, m.counts), snap, trace)
      else FrameEnd(Failed(s.fault), snap, trace)
  }

  /** The values CALL pops, in the order it pops them: top first. */
  function PopOrder(stack: seq<int>, n: nat): (popped: seq<int>)
    requires n <= |stack|
    ensures |popped| == n
  {
    if n == 0 then [] else [stack[|stack| - 1]] + PopOrder(stack[..|stack| - 1], n - 1)
  }

  /** Popping one more value adds the next one down. */
  lemma {:induction false} PopOrderNext(stack: seq<int>, i: nat)
    requires i < |stack|
    ensures PopOrder(stack, i + 1) == PopOrder(stack, i) + [stack[|stack| - 1 - i]]
    decreases i
  {
    if i > 0 {
      var init := stack[..|stack| - 1];
      PopOrderNext(init, i - 1);
      assert init[|init| - 1 - (i - 1)] == stack[|stack| - 1 - i];
    }
  }

  function Reverse(s: seq<int>): (r: seq<int>)
    ensures |r| == |s|
  {
    if s == [] then [] else Reverse(s[1..]) + [s[0]]
  }

  /** Where a CALL leaves its caller: resumed with new gas, stack, counts,
      staged storage and trace, or aborted with the frame's end. */
  datatype CallEnd =
    | Resumed(gas: int, stack: seq<int>, counts: Counts, snap: Snapshot, trace: seq<Event>)
    | Aborted(end: FrameEnd)

  /** CALL callee g nargs, made by contract caller with gas remaining after
      the CALL itself was charged.  It first checks that the caller can
      afford the child's budget g and holds nargs arguments, then pops nargs
      values and runs the child on them, reversed back into the order they
      were pushed, on the same staged storage and trace.  The child's budget
      is reserved and what it did not use is refunded; a child that returns
      leaves its value on the caller's stack and is recorded after
      everything it recorded itself.  A failing child aborts the caller with
      the same fault. */
  function CallStep(progs: Programs, caller: string, callee: string, g: int, nargs: int, gas: int,
                    stack: seq<int>, counts: Counts, snap: Snapshot, trace: seq<Event>): (c: CallEnd)
    requires progs.Keys <= snap.Keys && 0 <= gas
    ensures c.Resumed? ==> 0 <= c.gas <= gas && c.snap.Keys == snap.Keys && trace <= c.trace
    ensures c.Aborted? ==> c.end.outcome.Failed? && c.end.snap.Keys == snap.Keys && trace <= c.end.trace
    decreases Max0(gas) + 1, 0, 0
  {
    if gas < g then Aborted(FrameEnd(Failed(Error(InsufficientGasForCall)), snap, trace))
    else if |stack| < nargs then Aborted(FrameEnd(Failed(Error(InsufficientArguments)), snap, trace))
    else
      var n := Max0(nargs);
      var child := RunFrame(progs, callee, g, Reverse(PopOrder(stack, n)), snap, trace);
      if child.outcome.Failed? then Aborted(child)
      else
        var used, ret := child.outcome.gasUsed, child.outcome.ret;
        Resumed(gas - g + (g - used), stack[..|stack| - n] + [ret], Merge(counts, child.outcome.counts),
                child.snap, child.trace + [CallEvent(caller, callee, g, used, ret)])
  }

  /** CallStep once both checks have passed, in terms of the child frame. */
  lemma CallStepAccepted(progs: Programs, caller: string, callee: string, g: int, nargs: int, gas: int,
                         stack: seq<int>, counts: Counts, snap: Snapshot, trace: seq<Event>, child: FrameEnd)
    requires progs.Keys <= snap.Keys && 0 <= gas && g <= gas && nargs <= |stack|
    requires RunFrame(progs, callee, g, Reverse(PopOrder(stack, Max0(nargs))), snap, trace) == child
    ensures CallStep(progs, caller, callee, g, nargs, gas, stack, counts, snap, trace) ==
      if child.outcome.Failed? then Aborted(child)
      else Resumed(gas - g + (g - child.outcome.gasUsed), stack[..|stack| - Max0(nargs)] + [child.outcome.ret],
                   Merge(counts, child.outcome.counts), child.snap,
                   child.trace + [CallEvent(caller, callee, g, child.outcome.gasUsed, child.outcome.ret)])
  {
  }

  // ---------------------------------------------------------------------
  // Transactions
  // ---------------------------------------------------------------------

  /** What a transaction reports.  Escaped stands for the ValueError that
      leaves the transaction without a report. */
  datatype TxResult =
    | Completed(success: bool, returned: Option<int>, gasUsed: int, opCounts: Counts, callTrace: seq<Event>)
    | Escaped

  /** The report together with every contract's storage afterwards. */
  datatype TxEnd = TxEnd(result: TxResult, stores: Snapshot)

  /** How a transaction ends once its root frame has ended as e: the staged
      copy replaces the storages only if the frame returned. */
  function Settle(e: FrameEnd, stores: Snapshot, gasLimit: int): (t: TxEnd)
    ensures !(t.result.Completed? && t.result.success) ==> t.stores == stores
    ensures t.result.Completed? && t.result.success ==> t.stores == e.snap
    ensures t.result.Completed? <==> !(e.outcome.Failed? && e.outcome.fault.ValueError?)
    ensures t.result.Completed? ==> t.result.callTrace == e.trace
    ensures t.result.Completed? && !t.result.success ==>
      t.result.returned == None && t.result.gasUsed == gasLimit && t.result.opCounts == map[]
    // success is exactly a returned frame, and every VM error is a plain failure
    ensures (t.result.Completed? && t.result.success) <==> e.outcome.Returned?
    ensures e.outcome.Failed? && e.outcome.fault.Error? ==>
      t == TxEnd(Completed(false, None, gasLimit, map[], e.trace), stores)
  {
    match e.outcome
    case Returned(ret, used, counts) => TxEnd(Completed(true, Some(ret), used, counts, e.trace), e.snap)
    case Failed(Error(_)) => TxEnd(Completed(false, None, gasLimit, map[], e.trace), stores)
    case Failed(ValueError) => TxEnd(Escaped, stores)
  }

  /** A transaction: the root frame runs on a staged copy of every storage,
      with an empty trace, and the transaction settles on how it ended. */
  function Transact(codes: Codes, stores: Snapshot, to: string, gasLimit: int, args: seq<int>): (t: TxEnd)
    requires codes.Keys == stores.Keys
    ensures t.stores.Keys == stores.Keys
    ensures !(t.result.Completed? && t.result.success) ==> t.stores == stores
    ensures (t.result.Completed? && t.result.success) <==>
      RunFrame(CompileAll(codes), to, gasLimit, args, stores, []).outcome.Returned?
  {
    Settle(RunFrame(CompileAll(codes), to, gasLimit, args, stores, []), stores, gasLimit)
  }
}
