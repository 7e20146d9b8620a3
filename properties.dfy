/** What the interpreter promises, stated over its specification in
    VmSemantics: gas charging, the arithmetic, storage access, RETURN, CALL,
    the call trace and the all-or-nothing effect of a transaction. */
module VmProperties {
  import opened VmOps
  import opened VmSemantics

  // ---------------------------------------------------------------------
  // Decoding ahead
  // ---------------------------------------------------------------------

  /** The text of a program of well-formed opcodes, one line each. */
  function Assemble(ops: seq<Op>): (code: Code)
    requires forall i | 0 <= i < |ops| :: ops[i].WellFormed()
    ensures |code| == |ops|
  {
    seq(|ops|, i requires 0 <= i < |ops| => Encode(ops[i]))
  }

  /** The same program as the frame sees it: each opcode under its name. */
  function Annotate(ops: seq<Op>): (prog: Program)
    requires forall i | 0 <= i < |ops| :: ops[i].WellFormed()
    ensures |prog| == |ops|
  {
    seq(|ops|, i requires 0 <= i < |ops| => Instruction(Mnemonic(ops[i]), ops[i]))
  }

  /** Decoding the text of a program gives back its opcodes, each charged
      under its canonical name. */
  lemma CompileAssembled(ops: seq<Op>)
    requires forall i | 0 <= i < |ops| :: ops[i].WellFormed()
    ensures Compile(Assemble(ops)) == Annotate(ops)
  {
    forall i | 0 <= i < |ops|
      ensures Compile(Assemble(ops))[i] == Annotate(ops)[i]
    {
      DecodeEncode(ops[i]);
    }
  }

  // ---------------------------------------------------------------------
  // Gas charging
  // ---------------------------------------------------------------------

  /** A blank line is skipped: nothing is charged and nothing is counted. */
  lemma BlankLineSkipped(codes: Codes, addr: string, gasLimit: int, ip: nat, gas: int, stack: seq<int>,
                         counts: Counts, snap: Snapshot, trace: seq<Event>)
    requires addr in codes && ip < |codes[addr]| && codes.Keys <= snap.Keys && gas <= gasLimit
    requires codes[addr][ip] == []
    ensures Loop(CompileAll(codes), addr, gasLimit, ip, gas, stack, counts, snap, trace) ==
            Loop(CompileAll(codes), addr, gasLimit, ip + 1, gas, stack, counts, snap, trace)
  {
  }

  /** Any other line is charged the cost of its upper-cased opcode name
      before it does anything, whatever that opcode turns out to be.  The
      frame runs out of gas exactly when the remaining gas drops below zero:
      reaching exactly zero is allowed and the instruction runs. */
  lemma ChargedFirst(codes: Codes, addr: string, gasLimit: int, ip: nat, gas: int, stack: seq<int>,
                     counts: Counts, snap: Snapshot, trace: seq<Event>)
    requires addr in codes && ip < |codes[addr]| && codes.Keys <= snap.Keys && gas <= gasLimit
    requires codes[addr][ip] != []
    ensures var name := Upper(codes[addr][ip][0]);
      var e := Loop(CompileAll(codes), addr, gasLimit, ip, gas, stack, counts, snap, trace);
      (gas < Cost(name) ==> e == FrameEnd(Failed(Error(OutOfGas)), snap, trace)) &&
      (gas >= Cost(name) ==>
         e == Dispatch(CompileAll(codes), addr, gasLimit, ip, DecodeOp(name, codes[addr][ip][1..]),
                       Charge(gas, counts, name), stack, snap, trace))
  {
  }

  /** A line that names no usable opcode is still charged first, and then
      ends the frame: a missing operand and an unknown name are VM errors,
      an operand int() rejects is a ValueError. */
  lemma LineFaults(codes: Codes, addr: string, gasLimit: int, ip: nat, gas: int, stack: seq<int>,
                   counts: Counts, snap: Snapshot, trace: seq<Event>)
    requires addr in codes && ip < |codes[addr]| && codes.Keys <= snap.Keys && gas <= gasLimit
    requires codes[addr][ip] != [] && Cost(Upper(codes[addr][ip][0])) <= gas
    ensures var name, args := Upper(codes[addr][ip][0]), codes[addr][ip][1..];
      var e := Loop(CompileAll(codes), addr, gasLimit, ip, gas, stack, counts, snap, trace);
      ((name in {"PUSH", "LOAD", "SLOAD", "STORE", "SSTORE"} && |args| < 1) || (name == "CALL" && |args| < 3) ==>
         e == FrameEnd(Failed(Error(MalformedInstruction)), snap, trace)) &&
      ((name == "PUSH" && |args| >= 1 && ParseInt(args[0]).None?) ||
       (name == "CALL" && |args| >= 3 && (ParseInt(args[1]).None? || ParseInt(args[2]).None?)) ==>
         e == FrameEnd(Failed(ValueError), snap, trace)) &&
      (name !in OpCost && name != "SLOAD" && name != "SSTORE" ==>
         e == FrameEnd(Failed(Error(UnknownOpcode)), snap, trace))
  {
    var name, args := Upper(codes[addr][ip][0]), codes[addr][ip][1..];
    ChargedFirst(codes, addr, gasLimit, ip, gas, stack, counts, snap, trace);
    DecodeOpFaults(name, args);
  }

  /** A charged, well-formed opcode other than CALL that finds too few
      values on the stack ends the frame with a stack underflow, and a DIV
      whose top value is zero ends it with a division by zero; either way
      the staged storage and the trace are those from before the line. */
  lemma RuntimeFaults(progs: Programs, addr: string, gasLimit: int, ip: nat, gas: int, stack: seq<int>,
                      counts: Counts, snap: Snapshot, trace: seq<Event>, name: string, op: Op)
    requires addr in progs && ip < |progs[addr]| && progs.Keys <= snap.Keys && gas <= gasLimit
    requires progs[addr][ip] == Instruction(name, op) && !op.Call? && op.WellFormed() && Cost(name) <= gas
    ensures |stack| < Pops(op) ==>
      Loop(progs, addr, gasLimit, ip, gas, stack, counts, snap, trace) ==
      FrameEnd(Failed(Error(StackUnderflow)), snap, trace)
    ensures op == Arith(Div) && |stack| >= 2 && stack[|stack| - 1] == 0 ==>
      Loop(progs, addr, gasLimit, ip, gas, stack, counts, snap, trace) ==
      FrameEnd(Failed(Error(DivisionByZero)), snap, trace)
  {
    var m := Charge(gas, counts, name);
    assert Loop(progs, addr, gasLimit, ip, gas, stack, counts, snap, trace) ==
           Dispatch(progs, addr, gasLimit, ip, op, m, stack, snap, trace);
  }

  /** A transaction whose target's first line is rejected: a malformed line
      or an unknown name fails the transaction with the whole limit charged,
      a bad operand escapes; either way no storage changes. */
  lemma TransactRejectsLine(codes: Codes, stores: Snapshot, to: string, gasLimit: int, args: seq<int>)
    requires codes.Keys == stores.Keys && to in codes && |codes[to]| > 0 && codes[to][0] != []
    requires Cost(Upper(codes[to][0][0])) <= gasLimit
    ensures var op := DecodeOp(Upper(codes[to][0][0]), codes[to][0][1..]);
      var t := Transact(codes, stores, to, gasLimit, args);
      (op.Malformed? || op.Unknown? ==> t == TxEnd(Completed(false, None, gasLimit, map[], []), stores)) &&
      (op.BadOperand? ==> t == TxEnd(Escaped, stores))
  {
    var name, rest := Upper(codes[to][0][0]), codes[to][0][1..];
    LineFaults(codes, to, gasLimit, 0, gasLimit, args, map[], stores, []);
    DecodeOpFaults(name, rest);
  }

  /** Charging counts the opcode name once, whether or not the gas then
      runs out, and leaves every other counter as it was. */
  lemma ChargeCounts(gas: int, counts: Counts, name: string)
    ensures var m := Charge(gas, counts, name);
      m.counts.Keys == counts.Keys + {name} &&
      Count(m.counts, name) == Count(counts, name) + 1 &&
      forall other | other != name :: Count(m.counts, other) == Count(counts, other)
  {
  }

  /** SLOAD and SSTORE are charged under their own names, which the cost
      table does not list, so they cost 1 where LOAD costs 5 and STORE 20. */
  lemma AliasesCostOne()
    ensures Cost("SLOAD") == 1 && Cost("SSTORE") == 1
    ensures Cost("LOAD") == 5 && Cost("STORE") == 20
    ensures forall args :: DecodeOp("SLOAD", args) == DecodeOp("LOAD", args)
    ensures forall args :: DecodeOp("SSTORE", args) == DecodeOp("STORE", args)
    ensures DecodeOp("SLOAD", ["k"]) == Load("k") && DecodeOp("SSTORE", ["k"]) == Store("k")
  {
    assert "SLOAD" !in OpCost;
    assert "SSTORE" !in OpCost;
  }

  // ---------------------------------------------------------------------
  // Arithmetic
  // ---------------------------------------------------------------------

  /** Python's b // a, written independently of FloorDiv: for a negative
      divisor, b / a == (-b) / (-a) and the divisor becomes positive, where
      Euclidean division rounds down. */
  function PythonFloorDiv(b: int, a: int): int
    requires a != 0
  {
    if a > 0 then b / a else (-b) / (-a)
  }

  /** A positive product with a positive factor has a positive cofactor. */
  lemma PositiveFactor(d: int, k: int)
    requires d > 0 && d * k > 0
    ensures k > 0
  {
  }

  /** Multiplying by a positive number keeps a strict order. */
  lemma MulCancel(d: int, a: int, b: int)
    requires d > 0 && d * a < d * b
    ensures a < b
  {
    assert d * b - d * a == d * (b - a);
    PositiveFactor(d, b - a);
  }

  /** The quotient q with d * q <= x < d * q + d is x / d. */
  lemma QuotientUnique(x: int, d: int, q: int)
    requires d > 0 && d * q <= x < d * q + d
    ensures x / d == q
  {
    var q0 := x / d;
    assert d * q0 <= x < d * q0 + d;
    assert d * (q0 + 1) == d * q0 + d;
    assert d * (q + 1) == d * q + d;
    MulCancel(d, q, q0 + 1);
    MulCancel(d, q0, q + 1);
  }

  /** DIV rounds toward minus infinity, as Python does, and not toward zero
      or to a non-negative remainder. */
  lemma FloorDivIsPythonFloor(b: int, a: int)
    requires a != 0
    ensures FloorDiv(b, a) == PythonFloorDiv(b, a)
  {
    if a < 0 {
      var q := FloorDiv(b, a);
      assert (-a) * q <= -b < (-a) * q + (-a);
      QuotientUnique(-b, -a, q);
    }
  }

  /** Where rounding toward minus infinity differs from Dafny's Euclidean
      division and from truncation. */
  lemma FloorDivExamples()
    ensures FloorDiv(7, 2) == 3 && FloorDiv(-7, 2) == -4
    ensures FloorDiv(7, -2) == -4 && 7 / -2 == -3
    ensures FloorDiv(-7, -2) == 3 && -7 / -2 == 4
  {
  }

  /** ADD, SUB, MUL and DIV: with fewer than two values they underflow;
      otherwise the top two values b (below) and a (on top) are replaced by
      b+a, b-a, b*a or Python's b // a, and everything below them stays.
      DIV by zero fails. */
  lemma ArithmeticSpec(kind: ArithKind, addr: string, stack: seq<int>, store: Storage)
    ensures var s := Exec(Arith(kind), addr, stack, store);
      if |stack| < 2 then s == Stop(Error(StackUnderflow))
      else
        var a, b := stack[|stack| - 1], stack[|stack| - 2];
        if kind == Div && a == 0 then s == Stop(Error(DivisionByZero))
        else
          s.Next? && s.store == store && s.logged == [] && |s.stack| == |stack| - 1 &&
          s.stack[..|stack| - 2] == stack[..|stack| - 2] &&
          (kind == Add ==> s.stack[|stack| - 2] == b + a) &&
          (kind == Sub ==> s.stack[|stack| - 2] == b - a) &&
          (kind == Mul ==> s.stack[|stack| - 2] == b * a) &&
          (kind == Div ==> s.stack[|stack| - 2] == PythonFloorDiv(b, a))
  {
    if |stack| >= 2 && kind == Div && stack[|stack| - 1] != 0 {
      FloorDivIsPythonFloor(stack[|stack| - 2], stack[|stack| - 1]);
    }
  }

  // ---------------------------------------------------------------------
  // Storage
  // ---------------------------------------------------------------------

  /** LOAD of a key never stored pushes 0 and changes nothing else. */
  lemma LoadUnstored(key: string, addr: string, stack: seq<int>, store: Storage)
    requires key !in store
    ensures Exec(Load(key), addr, stack, store) == Next(stack + [0], store, [])
  {
  }

  /** STORE k pops the top value v and sets k to v, leaving every other key
      as it was, so that an immediately following LOAD k pushes v.  On an
      empty stack STORE fails. */
  lemma StoreThenLoad(key: string, addr: string, stack: seq<int>, store: Storage)
    ensures |stack| == 0 ==> Exec(Store(key), addr, stack, store) == Stop(Error(StackUnderflow))
    ensures |stack| > 0 ==>
      var v := stack[|stack| - 1];
      var s := Exec(Store(key), addr, stack, store);
      s.Next? && s.stack == stack[..|stack| - 1] && s.logged == [] &&
      Lookup(s.store, key) == v &&
      (forall k | k != key :: Lookup(s.store, k) == Lookup(store, k)) &&
      Exec(Load(key), addr, s.stack, s.store) == Next(stack[..|stack| - 1] + [v], s.store, [])
  {
  }

  // ---------------------------------------------------------------------
  // Returning
  // ---------------------------------------------------------------------

  /** A frame that reaches RETURN, or runs off the end of its code, returns
      the top of its stack (0 when the stack is empty) and reports as used
      its budget minus what remains; RETURN itself costs nothing and leaves
      the staged storage and the trace as they are. */
  lemma FrameReturnsTop(codes: Codes, addr: string, gasLimit: int, ip: nat, gas: int, stack: seq<int>,
                        counts: Counts, snap: Snapshot, trace: seq<Event>)
    requires addr in codes && ip <= |codes[addr]| && codes.Keys <= snap.Keys && gas <= gasLimit
    requires ip < |codes[addr]| ==>
      0 <= gas && Decode(codes[addr][ip]).Instruction? && Decode(codes[addr][ip]).op.Return?
    ensures var e := Loop(CompileAll(codes), addr, gasLimit, ip, gas, stack, counts, snap, trace);
      e.snap == snap && e.trace == trace && e.outcome.Returned? &&
      e.outcome.ret == Top(stack) && e.outcome.gasUsed == gasLimit - gas &&
      (ip == |codes[addr]| ==> e.outcome.counts == counts) &&
      (ip < |codes[addr]| ==> e.outcome.counts == Charge(gas, counts, "RETURN").counts)
  {
  }

  // ---------------------------------------------------------------------
  // CALL
  // ---------------------------------------------------------------------

  /** Popping n values one by one and reversing the list gives the top n
      values of the stack in the order they were pushed. */
  lemma {:induction false} PoppedArgsInOrder(stack: seq<int>, n: nat)
    requires n <= |stack|
    ensures Reverse(PopOrder(stack, n)) == stack[|stack| - n..]
    decreases n
  {
    if n > 0 {
      var init, top := stack[..|stack| - 1], stack[|stack| - 1];
      var rest := PopOrder(init, n - 1);
      assert ([top] + rest)[1..] == rest;
      PoppedArgsInOrder(init, n - 1);
      assert init[|init| - (n - 1)..] + [top] == stack[|stack| - n..];
    }
  }

  /** CALL is refused when the caller cannot afford the child's budget, and
      then when it holds too few arguments; nothing else happens. */
  lemma CallRefused(progs: Programs, caller: string, callee: string, g: int, nargs: int, gas: int,
                    stack: seq<int>, counts: Counts, snap: Snapshot, trace: seq<Event>)
    requires progs.Keys <= snap.Keys && 0 <= gas
    ensures var c := CallStep(progs, caller, callee, g, nargs, gas, stack, counts, snap, trace);
      (gas < g ==> c == Aborted(FrameEnd(Failed(Error(InsufficientGasForCall)), snap, trace))) &&
      (g <= gas && |stack| < nargs ==> c == Aborted(FrameEnd(Failed(Error(InsufficientArguments)), snap, trace)))
  {
  }

  /** A CALL that passes both checks runs the callee on the caller's top n
      values in their pushed order.  A failing child fails the caller as it
      is.  A returning child costs the caller exactly the gas it used; the
      caller's stack loses the n values and gains the returned value; the
      counts add up; and the call event is recorded after every event the
      child recorded. */
  lemma CallSucceeds(progs: Programs, caller: string, callee: string, g: int, nargs: int, gas: int,
                     stack: seq<int>, counts: Counts, snap: Snapshot, trace: seq<Event>)
    requires progs.Keys <= snap.Keys && 0 <= gas
    requires g <= gas && nargs <= |stack|
    ensures var n := Max0(nargs);
      var child := RunFrame(progs, callee, g, stack[|stack| - n..], snap, trace);
      var c := CallStep(progs, caller, callee, g, nargs, gas, stack, counts, snap, trace);
      (child.outcome.Failed? ==> c == Aborted(child)) &&
      (child.outcome.Returned? ==>
         var used, ret := child.outcome.gasUsed, child.outcome.ret;
         c.Resumed? && c.gas == gas - used &&
         c.stack == stack[..|stack| - n] + [ret] &&
         c.snap == child.snap && trace <= child.trace &&
         c.trace == child.trace + [CallEvent(caller, callee, g, used, ret)] &&
         forall k :: Count(c.counts, k) == Count(counts, k) + Count(child.outcome.counts, k))
  {
    PoppedArgsInOrder(stack, Max0(nargs));
  }

  // ---------------------------------------------------------------------
  // CALL aborts
  // ---------------------------------------------------------------------

  /** A CALL line whose step aborts, whether refused by a guard or failed
      by its child, ends the calling frame right there, as the aborted step
      left it; the caller runs no further line. */
  lemma CallAbortEndsFrame(progs: Programs, addr: string, gasLimit: int, ip: nat, gas: int, stack: seq<int>,
                           counts: Counts, snap: Snapshot, trace: seq<Event>, callee: string, g: int, n: int,
                           end: FrameEnd)
    requires addr in progs && ip < |progs[addr]| && progs.Keys <= snap.Keys && 10 <= gas <= gasLimit
    requires progs[addr][ip] == Instruction("CALL", Call(callee, g, n))
    requires CallStep(progs, addr, callee, g, n, gas - 10, stack, Tick(counts, "CALL"), snap, trace) == Aborted(end)
    ensures Loop(progs, addr, gasLimit, ip, gas, stack, counts, snap, trace) == end
    ensures end.outcome.Failed?
  {
    var m := Charge(gas, counts, "CALL");
    assert m == Meter(gas - 10, Tick(counts, "CALL"));
    assert Loop(progs, addr, gasLimit, ip, gas, stack, counts, snap, trace) ==
           Dispatch(progs, addr, gasLimit, ip, Call(callee, g, n), m, stack, snap, trace);
  }

  /** A child frame that fails makes its caller fail at the CALL line with
      the child's own end: the same fault, and the staged storage and trace
      as the child left them.  Applied at each level, a failure anywhere
      below reaches the root frame. */
  lemma ChildFailureEndsFrame(progs: Programs, addr: string, gasLimit: int, ip: nat, gas: int, stack: seq<int>,
                              counts: Counts, snap: Snapshot, trace: seq<Event>, callee: string, g: int, n: int)
    requires addr in progs && ip < |progs[addr]| && progs.Keys <= snap.Keys && 10 <= gas <= gasLimit
    requires progs[addr][ip] == Instruction("CALL", Call(callee, g, n))
    requires g <= gas - 10 && n <= |stack|
    requires RunFrame(progs, callee, g, stack[|stack| - Max0(n)..], snap, trace).outcome.Failed?
    ensures Loop(progs, addr, gasLimit, ip, gas, stack, counts, snap, trace) ==
            RunFrame(progs, callee, g, stack[|stack| - Max0(n)..], snap, trace)
  {
    var child := RunFrame(progs, callee, g, stack[|stack| - Max0(n)..], snap, trace);
    CallSucceeds(progs, addr, callee, g, n, gas - 10, stack, Tick(counts, "CALL"), snap, trace);
    CallAbortEndsFrame(progs, addr, gasLimit, ip, gas, stack, counts, snap, trace, callee, g, n, child);
  }

  // ---------------------------------------------------------------------
  // Gas bounds in the call trace
  // ---------------------------------------------------------------------

  /** Every call event reports a child that used between 0 and its budget
      (0 for a negative budget). */
  predicate CallEventsSound(trace: seq<Event>) {
    forall i | 0 <= i < |trace| ::
      trace[i].CallEvent? ==> 0 <= trace[i].gasUsed <= Max0(trace[i].gasProvided)
  }

  /** A frame only ever records sound call events. */
  lemma {:induction false} RunFrameSound(progs: Programs, addr: string, gasLimit: int, args: seq<int>,
                                         snap: Snapshot, trace: seq<Event>)
    requires progs.Keys <= snap.Keys && CallEventsSound(trace)
    ensures CallEventsSound(RunFrame(progs, addr, gasLimit, args, snap, trace).trace)
    decreases Max0(gasLimit), if addr in progs then |progs[addr]| + 1 else 0, 0
  {
    if addr in progs {
      LoopSound(progs, addr, gasLimit, 0, gasLimit, args, map[], snap, trace);
    }
  }

  lemma {:induction false} LoopSound(progs: Programs, addr: string, gasLimit: int, ip: nat, gas: int,
                                     stack: seq<int>, counts: Counts, snap: Snapshot, trace: seq<Event>)
    requires addr in progs && ip <= |progs[addr]| && progs.Keys <= snap.Keys && gas <= gasLimit
    requires CallEventsSound(trace)
    ensures CallEventsSound(Loop(progs, addr, gasLimit, ip, gas, stack, counts, snap, trace).trace)
    decreases Max0(gasLimit), |progs[addr]| - ip, 1
  {
    if ip < |progs[addr]| {
      match progs[addr][ip]
      case Blank =>
        LoopSound(progs, addr, gasLimit, ip + 1, gas, stack, counts, snap, trace);
      case Instruction(name, op) =>
        var m := Charge(gas, counts, name);
        if m.gas >= 0 {
          DispatchSound(progs, addr, gasLimit, ip, op, m, stack, snap, trace);
        }
    }
  }

  lemma {:induction false} DispatchSound(progs: Programs, addr: string, gasLimit: int, ip: nat, op: Op, m: Meter,
                                         stack: seq<int>, snap: Snapshot, trace: seq<Event>)
    requires addr in progs && ip < |progs[addr]| && progs.Keys <= snap.Keys
    requires 0 <= m.gas <= gasLimit && (op.Call? ==> m.gas < gasLimit)
    requires CallEventsSound(trace)
    ensures CallEventsSound(Dispatch(progs, addr, gasLimit, ip, op, m, stack, snap, trace).trace)
    decreases Max0(gasLimit), |progs[addr]| - ip, 0
  {
    if op.Call? {
      CallStepSound(progs, addr, op.callee, op.gas, op.nargs, m.gas, stack, m.counts, snap, trace);
      var c := CallStep(progs, addr, op.callee, op.gas, op.nargs, m.gas, stack, m.counts, snap, trace);
      if c.Resumed? {
        LoopSound(progs, addr, gasLimit, ip + 1, c.gas, c.stack, c.counts, c.snap, c.trace);
      }
    } else {
      var s := Exec(op, addr, stack, snap[addr]);
      if s.Next? {
        assert CallEventsSound(trace + s.logged) by {
          forall i | 0 <= i < |trace + s.logged|
            ensures (trace + s.logged)[i].CallEvent? ==>
              0 <= (trace + s.logged)[i].gasUsed <= Max0((trace + s.logged)[i].gasProvided)
          {
            if i < |trace| {
              assert (trace + s.logged)[i] == trace[i];
            }
          }
        }
        LoopSound(progs, addr, gasLimit, ip + 1, m.gas, s.stack, m.counts, snap[addr := s.store], trace + s.logged);
      }
    }
  }

  lemma {:induction false} CallStepSound(progs: Programs, caller: string, callee: string, g: int, nargs: int,
                                         gas: int, stack: seq<int>, counts: Counts, snap: Snapshot,
                                         trace: seq<Event>)
    requires progs.Keys <= snap.Keys && 0 <= gas && CallEventsSound(trace)
    ensures var c := CallStep(progs, caller, callee, g, nargs, gas, stack, counts, snap, trace);
      CallEventsSound(if c.Resumed? then c.trace else c.end.trace)
    decreases Max0(gas) + 1, 0, 0
  {
    if g <= gas && nargs <= |stack| {
      var n := Max0(nargs);
      RunFrameSound(progs, callee, g, Reverse(PopOrder(stack, n)), snap, trace);
      var child := RunFrame(progs, callee, g, Reverse(PopOrder(stack, n)), snap, trace);
      if child.outcome.Returned? {
        var t := child.trace + [CallEvent(caller, callee, g, child.outcome.gasUsed, child.outcome.ret)];
        forall i | 0 <= i < |t|
          ensures t[i].CallEvent? ==> 0 <= t[i].gasUsed <= Max0(t[i].gasProvided)
        {
          if i < |child.trace| {
            assert t[i] == child.trace[i];
          }
        }
      }
    }
  }

  /** The line "CALL B -5 0": call B with budget -5 and no arguments. */
  lemma DecodeNegativeCall()
    ensures Decode(["CALL", "B", "-5", "0"]) == Instruction("CALL", Call("B", -5, 0))
  {
    var line: Instr := ["CALL", "B", "-5", "0"];
    assert Upper("CALL") == "CALL" by {
      UpperOfCapitals("CALL");
    }
    assert ParseInt("-5") == Some(-5) by {
      assert "-5"[1..] == "5";
      assert IsDecimal("5");
      assert DecimalValue("5") == 5;
    }
    assert ParseInt("0") == Some(0) by {
      assert IsDecimal("0");
      assert DecimalValue("0") == 0;
    }
    assert line[1..] == ["B", "-5", "0"];
  }

  /** The bound is on Max0(gasProvided) and not on gasProvided itself: a
      negative CALL budget passes the affordability check, the child runs
      out of gas at its first charged line, or returns at once using 0, and
      the event then reports more gas used than provided. */
  lemma NegativeCallBudget()
    ensures var codes := map["A" := [["CALL", "B", "-5", "0"]], "B" := []];
      var snap := map["A" := map[], "B" := map[]];
      var e := RunFrame(CompileAll(codes), "A", 100, [], snap, []);
      e.outcome == Returned(0, 10, map["CALL" := 1]) &&
      e.trace == [CallEvent("A", "B", -5, 0, 0)] &&
      e.trace[0].gasUsed > e.trace[0].gasProvided
  {
    var codes: Codes := map["A" := [["CALL", "B", "-5", "0"]], "B" := []];
    var snap: Snapshot := map["A" := map[], "B" := map[]];
    var event := CallEvent("A", "B", -5, 0, 0);
    DecodeNegativeCall();
    var progs := CompileAll(codes);
    assert progs["A"] == [Instruction("CALL", Call("B", -5, 0))];
    assert progs["B"] == [];
    assert RunFrame(progs, "B", -5, [], snap, []) == FrameEnd(Returned(0, 0, map[]), snap, []);
    assert Merge(map["CALL" := 1], map[]) == map["CALL" := 1];
    assert CallStep(progs, "A", "B", -5, 0, 90, [], map["CALL" := 1], snap, []) ==
           Resumed(90, [0], map["CALL" := 1], snap, [event]);
    assert Loop(progs, "A", 100, 1, 90, [0], map["CALL" := 1], snap, [event]) ==
           FrameEnd(Returned(0, 10, map["CALL" := 1]), snap, [event]);
    assert Charge(100, map[], "CALL") == Meter(90, map["CALL" := 1]);
    assert Dispatch(progs, "A", 100, 0, Call("B", -5, 0), Meter(90, map["CALL" := 1]), [], snap, []) ==
           Loop(progs, "A", 100, 1, 90, [0], map["CALL" := 1], snap, [event]);
    assert Loop(progs, "A", 100, 0, 100, [], map[], snap, []) ==
           Dispatch(progs, "A", 100, 0, Call("B", -5, 0), Meter(90, map["CALL" := 1]), [], snap, []);
  }

  // ---------------------------------------------------------------------
  // Transactions
  // ---------------------------------------------------------------------

  /** A transaction whose target starts with DIV and whose arguments put a
      zero on top fails: no return value, the whole limit charged, empty
      counts and trace, and every storage as it was. */
  lemma DivByZeroFailsTransaction(codes: Codes, stores: Snapshot, to: string, gasLimit: int, b: int)
    requires codes.Keys == stores.Keys && to in codes && |codes[to]| > 0 && codes[to][0] == ["DIV"]
    requires 5 <= gasLimit
    ensures Transact(codes, stores, to, gasLimit, [b, 0]) ==
            TxEnd(Completed(false, None, gasLimit, map[], []), stores)
  {
    var progs := CompileAll(codes);
    assert IsCapitals("DIV");
    DecodeCapitals(["DIV"]);
    assert progs[to][0] == Instruction("DIV", Arith(Div));
    RuntimeFaults(progs, to, gasLimit, 0, gasLimit, [b, 0], map[], stores, [], "DIV", Arith(Div));
    assert RunFrame(progs, to, gasLimit, [b, 0], stores, []) == FrameEnd(Failed(Error(DivisionByZero)), stores, []);
  }

  /** A transaction to an address with no contract fails at once: nothing is
      recorded and every storage stays as it was. */
  lemma TransactMissingContract(codes: Codes, stores: Snapshot, to: string, gasLimit: int, args: seq<int>)
    requires codes.Keys == stores.Keys && to !in codes
    ensures Transact(codes, stores, to, gasLimit, args) == TxEnd(Completed(false, None, gasLimit, map[], []), stores)
  {
  }

  /** A transaction is all or nothing.  When its root frame returns, every
      contract's storage becomes its staged copy, the return value is
      present and the gas used lies within the budget.  When a VM error is
      raised at any depth, no storage changes, the whole budget is reported
      as used, the counts are empty and the call trace holds what was
      recorded before the error.  Every reported call event is sound. */
  lemma TransactAtomic(codes: Codes, stores: Snapshot, to: string, gasLimit: int, args: seq<int>)
    requires codes.Keys == stores.Keys
    ensures var e := RunFrame(CompileAll(codes), to, gasLimit, args, stores, []);
      var t := Transact(codes, stores, to, gasLimit, args);
      (t.result.Completed? && t.result.success ==>
         t.stores == e.snap && t.result.returned.Some? && 0 <= t.result.gasUsed <= Max0(gasLimit)) &&
      (t.result.Completed? && !t.result.success ==>
         t.stores == stores && e.outcome.Failed? && e.outcome.fault.Error? &&
         t.result.returned == None && t.result.gasUsed == gasLimit && t.result.opCounts == map[] &&
         t.result.callTrace == e.trace) &&
      (t.result.Escaped? <==> e.outcome.Failed? && e.outcome.fault.ValueError?) &&
      (t.result.Escaped? ==> t.stores == stores) &&
      (t.result.Completed? ==> CallEventsSound(t.result.callTrace)) &&
      (t.result.Completed? && t.result.success <==> e.outcome.Returned?) &&
      (e.outcome.Returned? ==>
         t == TxEnd(Completed(true, Some(e.outcome.ret), e.outcome.gasUsed, e.outcome.counts, e.trace), e.snap)) &&
      (e.outcome.Failed? && e.outcome.fault.Error? ==>
         t == TxEnd(Completed(false, None, gasLimit, map[], e.trace), stores))
  {
    RunFrameSound(CompileAll(codes), to, gasLimit, args, stores, []);
  }
}
