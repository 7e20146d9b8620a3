/** The interpreter itself: transactions and frames as imperative code over
    the registry, each method proved to compute what the functions of
    VmSemantics specify. */
module VmMachine {
  import opened VmOps
  import opened VmSemantics
  import opened VmWorld

  /** What every frame of one transaction shares: the staged copy of all
      storages, which frames update in place, and the call trace, to which
      they append. */
  class TxState {
    var snapshot: Snapshot
    var callTrace: seq<Event>

    constructor (snapshot: Snapshot)
      ensures this.snapshot == snapshot && callTrace == []
    {
      this.snapshot := snapshot;
      callTrace := [];
    }
  }

  /** How an instruction other than CALL leaves the frame. */
  datatype Status = Continue | Halted(ret: int) | Faulted(fault: Fault)

  class VM {
    const world: World

    constructor (world: World)
      ensures this.world == world
    {
      this.world := world;
    }

    /** Runs contract to with budget gasLimit and initial stack inputArgs.
        The report and the storages afterwards are those Transact gives for
        the world as it was: committed on success, untouched otherwise. */
    method ExecuteTransaction(to: string, gasLimit: int, inputArgs: seq<int>) returns (r: TxResult)
      requires world.Valid()
      modifies world.contracts.Values
      ensures world.contracts == old(world.contracts)
      ensures TxEnd(r, world.Storages()) == Transact(old(world.Codes()), old(world.Storages()), to, gasLimit, inputArgs)
    {
      ghost var t := Transact(world.Codes(), world.Storages(), to, gasLimit, inputArgs);
      var outcome, tx := RunRoot(to, gasLimit, inputArgs);
      assert t == Settle(FrameEnd(outcome, tx.snapshot, tx.callTrace), world.Storages(), gasLimit);
      match outcome {
        case Returned(ret, used, counts) =>
          world.Commit(tx.snapshot);
          r := Completed(true, Some(ret), used, counts, tx.callTrace);
        case Failed(Error(_)) =>
          // discard the staged copy; the whole budget counts as used
          r := Completed(false, None, gasLimit, map[], tx.callTrace);
        case Failed(ValueError) =>
          r := Escaped;
      }
    }

    /** The root frame of a transaction, on a fresh staged copy of every
        contract's storage and an empty call trace; the world is left as it
        was. */
    method RunRoot(to: string, gasLimit: int, inputArgs: seq<int>) returns (outcome: Outcome, tx: TxState)
      ensures fresh(tx)
      ensures FrameEnd(outcome, tx.snapshot, tx.callTrace) ==
              RunFrame(CompileAll(world.Codes()), to, gasLimit, inputArgs, world.Storages(), [])
    {
      // stage an independent copy of every contract's storage
      tx := new TxState(world.Storages());
      outcome := ExecContractFrame(to, gasLimit, inputArgs, tx);
    }

    /** One frame: contract addr runs with budget gasLimit and initial stack
        args, on the transaction's staged storage and call trace. */
    method ExecContractFrame(addr: string, gasLimit: int, args: seq<int>, tx: TxState) returns (outcome: Outcome)
      requires world.Codes().Keys <= tx.snapshot.Keys
      modifies tx
      ensures FrameEnd(outcome, tx.snapshot, tx.callTrace) ==
              RunFrame(CompileAll(world.Codes()), addr, gasLimit, args, old(tx.snapshot), old(tx.callTrace))
      decreases Max0(gasLimit), 2
    {
      if addr !in world.contracts {
        return Failed(Error(ContractNotFound));
      }
      ghost var progs := CompileAll(world.Codes());
      var code := world.contracts[addr].code;
      assert |code| == |progs[addr]|;
      var ip: nat := 0;
      var gasRemaining := gasLimit;
      var opCounts: Counts := map[];
      var stack := args;
      while ip < |code|
        invariant ip <= |code| && gasRemaining <= gasLimit
        invariant progs.Keys <= tx.snapshot.Keys
        invariant Loop(progs, addr, gasLimit, ip, gasRemaining, stack, opCounts, tx.snapshot, tx.callTrace)
               == RunFrame(progs, addr, gasLimit, args, old(tx.snapshot), old(tx.callTrace))
        decreases |code| - ip
      {
        var decoded := Decode(code[ip]);
        assert decoded == progs[addr][ip];
        if decoded.Blank? {
          ip := ip + 1;
          continue;
        }
        var status;
        status, stack, gasRemaining, opCounts :=
          ExecLine(addr, gasLimit, ip, decoded.name, decoded.op, gasRemaining, stack, opCounts, tx);
        match status {
          case Continue =>
          case Halted(ret) =>
            return Returned(ret, gasLimit - gasRemaining, opCounts);
          case Faulted(fault) =>
            return Failed(fault);
        }
        ip := ip + 1;
      }
      return Returned(Top(stack), gasLimit - gasRemaining, opCounts);
    }

    /** Line ip of contract addr, decoded as opcode name with meaning op, on
        the frame's gas, stack and counts: the opcode is charged first and
        the frame fails with OutOfGas when the remaining gas drops below
        zero; then CALL goes to ExecCall and every other opcode to
        ExecInstruction.  What remains of the frame afterwards is what Loop
        says. */
    method ExecLine(addr: string, ghost gasLimit: int, ghost ip: nat, name: string, op: Op, gas: int,
                    stack: seq<int>, counts: Counts, tx: TxState)
      returns (status: Status, stackAfter: seq<int>, gasAfter: int, countsAfter: Counts)
      requires world.Codes().Keys <= tx.snapshot.Keys && addr in world.contracts && ip < |world.contracts[addr].code|
      requires CompileAll(world.Codes())[addr][ip] == Instruction(name, op) && gas <= gasLimit
      modifies tx
      ensures world.Codes().Keys <= tx.snapshot.Keys && (status.Continue? ==> gasAfter <= gasLimit)
      ensures Loop(CompileAll(world.Codes()), addr, gasLimit, ip, gas, stack, counts, old(tx.snapshot), old(tx.callTrace)) ==
              match status
              case Continue =>
                Loop(CompileAll(world.Codes()), addr, gasLimit, ip + 1, gasAfter, stackAfter, countsAfter, tx.snapshot, tx.callTrace)
              case Halted(ret) => FrameEnd(Returned(ret, gasLimit - gasAfter, countsAfter), tx.snapshot, tx.callTrace)
              case Faulted(fault) => FrameEnd(Failed(fault), tx.snapshot, tx.callTrace)
      decreases Max0(gasLimit), 1
    {
      // charge the opcode before it does anything
      var meter := Charge(gas, counts, name);
      gasAfter, countsAfter := meter.gas, meter.counts;
      if gasAfter < 0 {
        return Faulted(Error(OutOfGas)), stack, gasAfter, countsAfter;
      }
      if op.Call? {
        var failure;
        failure, gasAfter, stackAfter, countsAfter := ExecCall(addr, op.callee, op.gas, op.nargs, gasAfter, stack, countsAfter, tx);
        status := if failure.Some? then Faulted(failure.value) else Continue;
      } else {
        status, stackAfter := ExecInstruction(addr, op, stack, tx);
      }
    }

    /** CALL callee g nargs on the caller's gas, stack and counts, as
        CallStep says: the checks, the reservation of g, the child frame on
        the caller's top nargs values, the refund, the returned value and the
        call event. */
    method ExecCall(caller: string, callee: string, g: int, nargs: int, gas: int, stack: seq<int>,
                    counts: Counts, tx: TxState)
      returns (failure: Option<Fault>, gasAfter: int, stackAfter: seq<int>, countsAfter: Counts)
      requires world.Codes().Keys <= tx.snapshot.Keys && 0 <= gas
      modifies tx
      ensures CallStep(CompileAll(world.Codes()), caller, callee, g, nargs, gas, stack, counts, old(tx.snapshot), old(tx.callTrace)) ==
              if failure.Some? then Aborted(FrameEnd(Failed(failure.value), tx.snapshot, tx.callTrace))
              else Resumed(gasAfter, stackAfter, countsAfter, tx.snapshot, tx.callTrace)
      decreases Max0(gas) + 1, 0
    {
      ghost var progs, snap, trace := CompileAll(world.Codes()), tx.snapshot, tx.callTrace;
      gasAfter, stackAfter, countsAfter := gas, stack, counts;
      if gasAfter < g {
        return Some(Error(InsufficientGasForCall)), gasAfter, stackAfter, countsAfter;
      }
      if |stackAfter| < nargs {
        return Some(Error(InsufficientArguments)), gasAfter, stackAfter, countsAfter;
      }
      var args;
      args, stackAfter := PopArgs(stack, Max0(nargs));
      // reserve the child's whole budget
      gasAfter := gasAfter - g;
      var child := ExecContractFrame(callee, g, args, tx);
      CallStepAccepted(progs, caller, callee, g, nargs, gas, stack, counts, snap, trace, FrameEnd(child, tx.snapshot, tx.callTrace));
      if child.Failed? {
        return Some(child.fault), gasAfter, stackAfter, countsAfter;
      }
      // refund what the child did not use
      gasAfter := gasAfter + (g - child.gasUsed);
      countsAfter := Merge(countsAfter, child.counts);
      stackAfter := stackAfter + [child.ret];
      tx.callTrace := tx.callTrace + [CallEvent(caller, callee, g, child.gasUsed, child.ret)];
      failure := None;
    }

    /** Pops n values off stack one by one, top first, and puts them back
        in the order they were pushed: the call's arguments, and the stack
        left behind. */
    static method PopArgs(stack: seq<int>, n: nat) returns (args: seq<int>, rest: seq<int>)
      requires n <= |stack|
      ensures args == Reverse(PopOrder(stack, n)) && rest == stack[..|stack| - n]
    {
      var popped: seq<int> := [];
      rest := stack;
      while |popped| < n
        invariant |popped| <= n
        invariant rest == stack[..|stack| - |popped|]
        invariant popped == PopOrder(stack, |popped|)
      {
        PopOrderNext(stack, |popped|);
        popped := popped + [rest[|rest| - 1]];
        rest := rest[..|rest| - 1];
      }
      args := Reverse(popped);
    }

    /** One charged instruction other than CALL, applied to the frame's stack
        and, in place, to the contract's staged storage and the call trace;
        it does what Exec says. */
    method ExecInstruction(addr: string, op: Op, stack: seq<int>, tx: TxState) returns (status: Status, next: seq<int>)
      requires !op.Call? && addr in tx.snapshot
      modifies tx
      ensures match Exec(op, addr, stack, old(tx.snapshot[addr]))
        case Next(after, store, logged) =>
          status == Continue && next == after &&
          tx.snapshot == old(tx.snapshot)[addr := store] && tx.callTrace == old(tx.callTrace) + logged
        case Halt(ret) =>
          status == Halted(ret) && tx.snapshot == old(tx.snapshot) && tx.callTrace == old(tx.callTrace)
        case Stop(fault) =>
          status == Faulted(fault) && tx.snapshot == old(tx.snapshot) && tx.callTrace == old(tx.callTrace)
    {
      next := stack;
      match op {
        case Push(v) =>
          next := next + [v];
        case Pop =>
          if |next| == 0 {
            return Faulted(Error(StackUnderflow)), next;
          }
          next := next[..|next| - 1];
        case Arith(kind) =>
          if |next| < 2 {
            return Faulted(Error(StackUnderflow)), next;
          }
          var a, b := next[|next| - 1], next[|next| - 2];
          next := next[..|next| - 2];
          var v: int;
          match kind {
            case Add => v := b + a;
            case Sub => v := b - a;
            case Mul => v := b * a;
            case Div =>
              if a == 0 {
                return Faulted(Error(DivisionByZero)), next;
              }
              v := FloorDiv(b, a);
          }
          next := next + [v];
        case Load(key) =>
          next := next + [Lookup(tx.snapshot[addr], key)];
        case Store(key) =>
          if |next| == 0 {
            return Faulted(Error(StackUnderflow)), next;
          }
          var v := next[|next| - 1];
          next := next[..|next| - 1];
          tx.snapshot := tx.snapshot[addr := tx.snapshot[addr][key := v]];
        case Log =>
          if |next| == 0 {
            return Faulted(Error(StackUnderflow)), next;
          }
          var v := next[|next| - 1];
          next := next[..|next| - 1];
          tx.callTrace := tx.callTrace + [LogEvent(addr, v)];
        case Return =>
          return Halted(Top(next)), next;
        case Malformed =>
          return Faulted(Error(MalformedInstruction)), next;
        case BadOperand =>
          return Faulted(ValueError), next;
        case Unknown =>
          return Faulted(Error(UnknownOpcode)), next;
      }
      status := Continue;
    }
  }
}
