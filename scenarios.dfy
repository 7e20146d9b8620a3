/** The two demonstration contracts and the four transactions run against
    them (src/demo_mini_evm.py), worked out over the specification. */
module DemoScenarios {
  import opened VmOps
  import opened VmSemantics
  import opened VmProperties

  /** Contract A adds its argument to its counter and returns the new
      counter: LOAD counter, ADD, STORE counter, LOAD counter, RETURN. */
  const OpsA: seq<Op> := [Load("counter"), Arith(Add), Store("counter"), Load("counter"), Return]

  /** Contract B calls A with argument 2 and budget 200, multiplies the
      result by 10, stores it under myvalue and returns it: PUSH 2,
      CALL A 200 1, PUSH 10, MUL, STORE myvalue, LOAD myvalue, RETURN. */
  const OpsB: seq<Op> :=
    [Push(2), Call("A", 200, 1), Push(10), Arith(Mul), Store("myvalue"), Load("myvalue"), Return]

  /** A's code as deployed, each line split into its tokens. */
  const CodeA: Code := [["LOAD", "counter"], ["ADD"], ["STORE", "counter"], ["LOAD", "counter"], ["RETURN"]]

  /** B's code as deployed. */
  const CodeB: Code :=
    [["PUSH", "2"], ["CALL", "A", "200", "1"], ["PUSH", "10"], ["MUL"], ["STORE", "myvalue"], ["LOAD", "myvalue"], ["RETURN"]]

  /** The whole demonstration world, as text: A and B deployed. */
  const DemoCodes: Codes := map["A" := CodeA, "B" := CodeB]

  /** The same, decoded. */
  const DemoProgs: Programs := map["A" := Annotate(OpsA), "B" := Annotate(OpsB)]

  /** What the frame sees of A's decoded code, line by line. */
  predicate ShapeA(p: Program) {
    |p| == 5 &&
    p[0] == Instruction("LOAD", Load("counter")) && p[1] == Instruction("ADD", Arith(Add)) &&
    p[2] == Instruction("STORE", Store("counter")) && p[3] == Instruction("LOAD", Load("counter")) &&
    p[4] == Instruction("RETURN", Return)
  }

  /** What the frame sees of B's decoded code, line by line. */
  predicate ShapeB(p: Program) {
    |p| == 7 &&
    p[0] == Instruction("PUSH", Push(2)) && p[1] == Instruction("CALL", Call("A", 200, 1)) &&
    p[2] == Instruction("PUSH", Push(10)) && p[3] == Instruction("MUL", Arith(Mul)) &&
    p[4] == Instruction("STORE", Store("myvalue")) && p[5] == Instruction("LOAD", Load("myvalue")) &&
    p[6] == Instruction("RETURN", Return)
  }

  /** The deployed text is the text of the opcodes OpsA and OpsB. */
  lemma AssembledDemo()
    ensures Assemble(OpsA) == CodeA && Assemble(OpsB) == CodeB
  {
    assert Show(2) == "2" && Show(10) == "10" && Show(200) == "200" && Show(1) == "1";
  }

  /** Decoding the demonstration contracts gives DemoProgs. */
  lemma {:induction false} DecodeDemo()
    ensures CompileAll(DemoCodes) == DemoProgs
  {
    AssembledDemo();
    CompileAssembled(OpsA);
    CompileAssembled(OpsB);
  }

  lemma {:induction false} ShapeOfDemo()
    ensures "A" in DemoProgs && ShapeA(DemoProgs["A"])
    ensures "B" in DemoProgs && ShapeB(DemoProgs["B"])
  {
  }

  /** The deployed text of A and B decodes to the lines the frames see. */
  lemma {:induction false} DemoShapes()
    ensures DemoCodes.Keys == {"A", "B"}
    ensures ShapeA(CompileAll(DemoCodes)["A"]) && ShapeB(CompileAll(DemoCodes)["B"])
  {
    DecodeDemo();
    ShapeOfDemo();
    assert Compile(DemoCodes["A"]) == CompileAll(DemoCodes)["A"];
    assert Compile(DemoCodes["B"]) == CompileAll(DemoCodes)["B"];
  }

  // ---------------------------------------------------------------------
  // Single lines
  // ---------------------------------------------------------------------

  /** PUSH v, LOG, LOAD key, ADD, MUL and STORE key, each run with enough
      gas and enough operands, as the frame sees them: the next line runs on
      the charged gas and counts and on the new stack and storage, and LOG
      appends one log event naming the contract and the popped value.  The state
      after the line is passed in, so that a run can be followed line by
      line on the very terms the next step starts from. */
  lemma {:induction false} StepPush(progs: Programs, addr: string, gasLimit: int, ip: nat, gas: int, stack: seq<int>,
                 counts: Counts, snap: Snapshot, trace: seq<Event>, v: int, ip': nat, gas': int, stack': seq<int>)
    requires addr in progs && ip < |progs[addr]| && progs.Keys <= snap.Keys && gas <= gasLimit
    requires progs[addr][ip] == Instruction("PUSH", Push(v))
    requires ip' == ip + 1 && 0 <= gas' && gas' == gas - 1 && stack' == stack + [v]
    ensures Loop(progs, addr, gasLimit, ip, gas, stack, counts, snap, trace) ==
            Loop(progs, addr, gasLimit, ip', gas', stack', Tick(counts, "PUSH"), snap, trace)
  {
    assert snap[addr := snap[addr]] == snap;
    assert trace + [] == trace;
  }

  lemma {:induction false} StepLog(progs: Programs, addr: string, gasLimit: int, ip: nat, gas: int, stack: seq<int>,
                counts: Counts, snap: Snapshot, trace: seq<Event>, v: int, rest: seq<int>, ip': nat, gas': int)
    requires addr in progs && ip < |progs[addr]| && progs.Keys <= snap.Keys && gas <= gasLimit
    requires progs[addr][ip] == Instruction("LOG", Log)
    requires ip' == ip + 1 && 0 <= gas' && gas' == gas - 1 && stack == rest + [v]
    ensures Loop(progs, addr, gasLimit, ip, gas, stack, counts, snap, trace) ==
            Loop(progs, addr, gasLimit, ip', gas', rest, Tick(counts, "LOG"), snap, trace + [LogEvent(addr, v)])
  {
    assert snap[addr := snap[addr]] == snap;
    assert stack[..|stack| - 1] == rest;
  }

  lemma {:induction false} StepLoad(progs: Programs, addr: string, gasLimit: int, ip: nat, gas: int, stack: seq<int>,
                 counts: Counts, snap: Snapshot, trace: seq<Event>, key: string, ip': nat, gas': int, stack': seq<int>)
    requires addr in progs && ip < |progs[addr]| && progs.Keys <= snap.Keys && gas <= gasLimit
    requires progs[addr][ip] == Instruction("LOAD", Load(key))
    requires ip' == ip + 1 && 0 <= gas' && gas' == gas - 5 && stack' == stack + [Lookup(snap[addr], key)]
    ensures Loop(progs, addr, gasLimit, ip, gas, stack, counts, snap, trace) ==
            Loop(progs, addr, gasLimit, ip', gas', stack', Tick(counts, "LOAD"), snap, trace)
  {
    assert snap[addr := snap[addr]] == snap;
    assert trace + [] == trace;
  }

  lemma {:induction false} StepArith(progs: Programs, addr: string, gasLimit: int, ip: nat, gas: int, stack: seq<int>,
                  counts: Counts, snap: Snapshot, trace: seq<Event>, kind: ArithKind, name: string,
                  rest: seq<int>, b: int, a: int, ip': nat, gas': int, stack': seq<int>)
    requires addr in progs && ip < |progs[addr]| && progs.Keys <= snap.Keys && gas <= gasLimit
    requires (kind, name) == (Add, "ADD") || (kind, name) == (Mul, "MUL")
    requires progs[addr][ip] == Instruction(name, Arith(kind))
    requires stack == rest + [b, a] && stack' == rest + [if kind == Add then b + a else b * a]
    requires ip' == ip + 1 && 0 <= gas' && gas' == gas - Cost(name)
    ensures Loop(progs, addr, gasLimit, ip, gas, stack, counts, snap, trace) ==
            Loop(progs, addr, gasLimit, ip', gas', stack', Tick(counts, name), snap, trace)
  {
    assert snap[addr := snap[addr]] == snap;
    assert trace + [] == trace;
    assert stack[|stack| - 1] == a && stack[|stack| - 2] == b && stack[..|stack| - 2] == rest;
  }

  lemma {:induction false} StepStore(progs: Programs, addr: string, gasLimit: int, ip: nat, gas: int, stack: seq<int>,
                  counts: Counts, snap: Snapshot, trace: seq<Event>, key: string, rest: seq<int>, v: int,
                  ip': nat, gas': int, snap': Snapshot)
    requires addr in progs && ip < |progs[addr]| && progs.Keys <= snap.Keys && gas <= gasLimit
    requires progs[addr][ip] == Instruction("STORE", Store(key))
    requires stack == rest + [v] && snap' == snap[addr := snap[addr][key := v]]
    requires ip' == ip + 1 && 0 <= gas' && gas' == gas - 20
    ensures Loop(progs, addr, gasLimit, ip, gas, stack, counts, snap, trace) ==
            Loop(progs, addr, gasLimit, ip', gas', rest, Tick(counts, "STORE"), snap', trace)
  {
    assert trace + [] == trace;
    assert stack[|stack| - 1] == v && stack[..|stack| - 1] == rest;
  }

  /** RETURN ends the frame with the top of the stack. */
  lemma {:induction false} StepReturn(progs: Programs, addr: string, gasLimit: int, ip: nat, gas: int, stack: seq<int>,
                   counts: Counts, snap: Snapshot, trace: seq<Event>)
    requires addr in progs && ip < |progs[addr]| && progs.Keys <= snap.Keys && 0 <= gas <= gasLimit
    requires progs[addr][ip] == Instruction("RETURN", Return)
    ensures Loop(progs, addr, gasLimit, ip, gas, stack, counts, snap, trace) ==
            FrameEnd(Returned(Top(stack), gasLimit - gas, Tick(counts, "RETURN")), snap, trace)
  {
  }

  /** CALL callee g n with the caller holding its n arguments on top of
      rest, when the child returns ret after using some of its budget: the
      caller resumes on rest plus ret, with what the child used deducted,
      the counts added up and the call recorded after the child's own
      trace. */
  lemma {:induction false} CallReturns(progs: Programs, caller: string, callee: string, g: int, n: int, gas: int, stack: seq<int>,
                    counts: Counts, snap: Snapshot, trace: seq<Event>, rest: seq<int>, args: seq<int>,
                    ret: int, used: int, childCounts: Counts, childSnap: Snapshot, childTrace: seq<Event>,
                    gas': int, stack': seq<int>)
    requires progs.Keys <= snap.Keys && 0 <= g <= gas && n == |args| && stack == rest + args
    requires RunFrame(progs, callee, g, args, snap, trace) ==
             FrameEnd(Returned(ret, used, childCounts), childSnap, childTrace)
    requires gas' == gas - used && stack' == rest + [ret]
    ensures CallStep(progs, caller, callee, g, n, gas, stack, counts, snap, trace) ==
            Resumed(gas', stack', Merge(counts, childCounts), childSnap,
                    childTrace + [CallEvent(caller, callee, g, used, ret)])
  {
    PoppedArgsInOrder(stack, |args|);
    assert stack[|stack| - |args|..] == args && stack[..|stack| - |args|] == rest;
  }

  /** The CALL line itself: charged 10, then CallStep; a resumed caller goes
      on at the next line. */
  lemma {:induction false} StepCall(progs: Programs, addr: string, gasLimit: int, ip: nat, gas: int, stack: seq<int>,
                 counts: Counts, snap: Snapshot, trace: seq<Event>, callee: string, g: int, n: int,
                 ip': nat, gas': int, stack': seq<int>, counts': Counts, snap': Snapshot, trace': seq<Event>)
    requires addr in progs && ip < |progs[addr]| && progs.Keys <= snap.Keys && 10 <= gas <= gasLimit
    requires progs[addr][ip] == Instruction("CALL", Call(callee, g, n))
    requires CallStep(progs, addr, callee, g, n, gas - 10, stack, Tick(counts, "CALL"), snap, trace) ==
             Resumed(gas', stack', counts', snap', trace')
    requires ip' == ip + 1
    ensures Loop(progs, addr, gasLimit, ip, gas, stack, counts, snap, trace) ==
            Loop(progs, addr, gasLimit, ip', gas', stack', counts', snap', trace')
  {
    var m := Charge(gas, counts, "CALL");
    assert m == Meter(gas - 10, Tick(counts, "CALL"));
    assert Loop(progs, addr, gasLimit, ip, gas, stack, counts, snap, trace) ==
           Dispatch(progs, addr, gasLimit, ip, Call(callee, g, n), m, stack, snap, trace);
  }

  // ---------------------------------------------------------------------
  // Contract A
  // ---------------------------------------------------------------------

  /** The counters after one run of A: LOAD, ADD, STORE, LOAD, RETURN. */
  function TallyA(counts: Counts): Counts {
    Tick(Tick(Tick(Tick(Tick(counts, "LOAD"), "ADD"), "STORE"), "LOAD"), "RETURN")
  }

  /** One run of A counts LOAD twice and ADD, STORE and RETURN once. */
  lemma CountsA()
    ensures var t := TallyA(map[]);
      Count(t, "LOAD") == 2 && Count(t, "ADD") == 1 && Count(t, "STORE") == 1 && Count(t, "RETURN") == 1 &&
      Count(t, "PUSH") == 0 && Count(t, "CALL") == 0 && Count(t, "MUL") == 0
  {
  }

  /** LOAD key followed by RETURN gives back the stored value. */
  lemma {:induction false} RunLoadReturn(progs: Programs, addr: string, gasLimit: int, ip: nat, key: string, gas: int,
                      counts: Counts, snap: Snapshot, trace: seq<Event>)
    requires addr in progs && ip + 1 < |progs[addr]| && progs.Keys <= snap.Keys && 5 <= gas <= gasLimit
    requires progs[addr][ip] == Instruction("LOAD", Load(key)) && progs[addr][ip + 1] == Instruction("RETURN", Return)
    ensures Loop(progs, addr, gasLimit, ip, gas, [], counts, snap, trace) ==
      FrameEnd(Returned(Lookup(snap[addr], key), gasLimit - gas + 5, Tick(Tick(counts, "LOAD"), "RETURN")), snap, trace)
  {
    var v := Lookup(snap[addr], key);
    assert Loop(progs, addr, gasLimit, ip, gas, [], counts, snap, trace) ==
           Loop(progs, addr, gasLimit, ip + 1, gas - 5, [v], Tick(counts, "LOAD"), snap, trace) by {
      assert [] + [v] == [v];
      StepLoad(progs, addr, gasLimit, ip, gas, [], counts, snap, trace, key, ip + 1, gas - 5, [v]);
    }
    assert Loop(progs, addr, gasLimit, ip + 1, gas - 5, [v], Tick(counts, "LOAD"), snap, trace) ==
           FrameEnd(Returned(v, gasLimit - gas + 5, Tick(Tick(counts, "LOAD"), "RETURN")), snap, trace) by {
      StepReturn(progs, addr, gasLimit, ip + 1, gas - 5, [v], Tick(counts, "LOAD"), snap, trace);
    }
  }

  /** A from its STORE line on: the sum on the stack becomes the counter
      and is returned. */
  lemma {:induction false} RunAStore(progs: Programs, gasLimit: int, gas: int, v: int, counts: Counts, snap: Snapshot, trace: seq<Event>)
    requires "A" in progs && ShapeA(progs["A"]) && progs.Keys <= snap.Keys && 25 <= gas <= gasLimit
    ensures Loop(progs, "A", gasLimit, 2, gas, [v], counts, snap, trace) ==
      FrameEnd(Returned(v, gasLimit - gas + 25, Tick(Tick(Tick(counts, "STORE"), "LOAD"), "RETURN")),
               snap["A" := snap["A"]["counter" := v]], trace)
  {
    var snap' := snap["A" := snap["A"]["counter" := v]];
    assert Loop(progs, "A", gasLimit, 2, gas, [v], counts, snap, trace) ==
           Loop(progs, "A", gasLimit, 3, gas - 20, [], Tick(counts, "STORE"), snap', trace) by {
      assert [v] == [] + [v];
      StepStore(progs, "A", gasLimit, 2, gas, [v], counts, snap, trace, "counter", [], v, 3, gas - 20, snap');
    }
    assert Loop(progs, "A", gasLimit, 3, gas - 20, [], Tick(counts, "STORE"), snap', trace) ==
           FrameEnd(Returned(v, gasLimit - gas + 25, Tick(Tick(Tick(counts, "STORE"), "LOAD"), "RETURN")), snap', trace) by {
      RunLoadReturn(progs, "A", gasLimit, 3, "counter", gas - 20, Tick(counts, "STORE"), snap', trace);
    }
  }

  /** A from its ADD line on, with the argument x below the counter c. */
  lemma {:induction false} RunAAdd(progs: Programs, gasLimit: int, gas: int, x: int, c: int, counts: Counts, snap: Snapshot,
                trace: seq<Event>)
    requires "A" in progs && ShapeA(progs["A"]) && progs.Keys <= snap.Keys && 28 <= gas <= gasLimit
    ensures Loop(progs, "A", gasLimit, 1, gas, [x, c], counts, snap, trace) ==
      FrameEnd(Returned(x + c, gasLimit - gas + 28, Tick(Tick(Tick(Tick(counts, "ADD"), "STORE"), "LOAD"), "RETURN")),
               snap["A" := snap["A"]["counter" := x + c]], trace)
  {
    assert Loop(progs, "A", gasLimit, 1, gas, [x, c], counts, snap, trace) ==
           Loop(progs, "A", gasLimit, 2, gas - 3, [x + c], Tick(counts, "ADD"), snap, trace) by {
      assert [x, c] == [] + [x, c] && [x + c] == [] + [x + c];
      StepArith(progs, "A", gasLimit, 1, gas, [x, c], counts, snap, trace, Add, "ADD", [], x, c, 2, gas - 3, [x + c]);
    }
    assert Loop(progs, "A", gasLimit, 2, gas - 3, [x + c], Tick(counts, "ADD"), snap, trace) ==
           FrameEnd(Returned(x + c, gasLimit - gas + 28, Tick(Tick(Tick(Tick(counts, "ADD"), "STORE"), "LOAD"), "RETURN")),
               snap["A" := snap["A"]["counter" := x + c]], trace) by {
      RunAStore(progs, gasLimit, gas - 3, x + c, Tick(counts, "ADD"), snap, trace);
    }
  }

  /** A from its first line, with the argument x on the stack. */
  lemma {:induction false} RunALoad(progs: Programs, gasLimit: int, x: int, counts: Counts, snap: Snapshot, trace: seq<Event>)
    requires "A" in progs && ShapeA(progs["A"]) && progs.Keys <= snap.Keys && 33 <= gasLimit
    ensures var c := Lookup(snap["A"], "counter");
      Loop(progs, "A", gasLimit, 0, gasLimit, [x], counts, snap, trace) ==
      FrameEnd(Returned(x + c, 33, TallyA(counts)), snap["A" := snap["A"]["counter" := x + c]], trace)
  {
    var c := Lookup(snap["A"], "counter");
    assert Loop(progs, "A", gasLimit, 0, gasLimit, [x], counts, snap, trace) ==
           Loop(progs, "A", gasLimit, 1, gasLimit - 5, [x, c], Tick(counts, "LOAD"), snap, trace) by {
      assert [x] + [c] == [x, c];
      StepLoad(progs, "A", gasLimit, 0, gasLimit, [x], counts, snap, trace, "counter", 1, gasLimit - 5, [x, c]);
    }
    assert Loop(progs, "A", gasLimit, 1, gasLimit - 5, [x, c], Tick(counts, "LOAD"), snap, trace) ==
           FrameEnd(Returned(x + c, 33, TallyA(counts)), snap["A" := snap["A"]["counter" := x + c]], trace) by {
      RunAAdd(progs, gasLimit, gasLimit - 5, x, c, Tick(counts, "LOAD"), snap, trace);
    }
  }

  /** One run of A with argument x and a budget of at least 33: the counter
      grows by x and the new counter is returned, for 33 gas, with each of
      A's five lines counted once; nothing is recorded. */
  lemma {:induction false} RunA(progs: Programs, gasLimit: int, x: int, snap: Snapshot, trace: seq<Event>)
    requires "A" in progs && ShapeA(progs["A"]) && progs.Keys <= snap.Keys && 33 <= gasLimit
    ensures var c := Lookup(snap["A"], "counter");
      RunFrame(progs, "A", gasLimit, [x], snap, trace) ==
      FrameEnd(Returned(x + c, 33, TallyA(map[])), Put(snap, "A", "counter", x + c), trace)
  {
    RunALoad(progs, gasLimit, x, map[], snap, trace);
  }

  // ---------------------------------------------------------------------
  // Contract B
  // ---------------------------------------------------------------------

  /** The counters of B's own lines after its CALL: PUSH, MUL, STORE, LOAD,
      RETURN. */
  function TallyBTail(counts: Counts): Counts {
    Tick(Tick(Tick(Tick(Tick(counts, "PUSH"), "MUL"), "STORE"), "LOAD"), "RETURN")
  }

  /** The counters after one run of B: its first PUSH and its CALL, A's
      lines run by the call, then the rest of B. */
  function TallyB(counts: Counts): Counts {
    TallyBTail(Merge(Tick(Tick(counts, "PUSH"), "CALL"), TallyA(map[])))
  }

  /** One run of B, with the run of A it calls: PUSH twice, CALL once,
      LOAD three times, ADD once, STORE twice, MUL once, RETURN twice. */
  lemma CountsB()
    ensures var t := TallyB(map[]);
      Count(t, "PUSH") == 2 && Count(t, "CALL") == 1 && Count(t, "LOAD") == 3 && Count(t, "ADD") == 1 &&
      Count(t, "STORE") == 2 && Count(t, "MUL") == 1 && Count(t, "RETURN") == 2
  {
    CountsA();
  }

  /** B from its STORE line on: the value on the stack is stored under
      myvalue and returned. */
  lemma {:induction false} RunBStore(progs: Programs, gasLimit: int, gas: int, v: int, counts: Counts, snap: Snapshot, trace: seq<Event>)
    requires "B" in progs && ShapeB(progs["B"]) && progs.Keys <= snap.Keys && 25 <= gas <= gasLimit
    ensures Loop(progs, "B", gasLimit, 4, gas, [v], counts, snap, trace) ==
      FrameEnd(Returned(v, gasLimit - gas + 25, Tick(Tick(Tick(counts, "STORE"), "LOAD"), "RETURN")),
               snap["B" := snap["B"]["myvalue" := v]], trace)
  {
    var snap' := snap["B" := snap["B"]["myvalue" := v]];
    assert Loop(progs, "B", gasLimit, 4, gas, [v], counts, snap, trace) ==
           Loop(progs, "B", gasLimit, 5, gas - 20, [], Tick(counts, "STORE"), snap', trace) by {
      assert [v] == [] + [v];
      StepStore(progs, "B", gasLimit, 4, gas, [v], counts, snap, trace, "myvalue", [], v, 5, gas - 20, snap');
    }
    assert Loop(progs, "B", gasLimit, 5, gas - 20, [], Tick(counts, "STORE"), snap', trace) ==
           FrameEnd(Returned(v, gasLimit - gas + 25, Tick(Tick(Tick(counts, "STORE"), "LOAD"), "RETURN")), snap', trace) by {
      RunLoadReturn(progs, "B", gasLimit, 5, "myvalue", gas - 20, Tick(counts, "STORE"), snap', trace);
    }
  }

  /** B from its MUL line on, with r below 10. */
  lemma {:induction false} RunBMul(progs: Programs, gasLimit: int, gas: int, r: int, counts: Counts, snap: Snapshot, trace: seq<Event>)
    requires "B" in progs && ShapeB(progs["B"]) && progs.Keys <= snap.Keys && 30 <= gas <= gasLimit
    ensures Loop(progs, "B", gasLimit, 3, gas, [r, 10], counts, snap, trace) ==
      FrameEnd(Returned(r * 10, gasLimit - gas + 30, Tick(Tick(Tick(Tick(counts, "MUL"), "STORE"), "LOAD"), "RETURN")),
               snap["B" := snap["B"]["myvalue" := r * 10]], trace)
  {
    assert Loop(progs, "B", gasLimit, 3, gas, [r, 10], counts, snap, trace) ==
           Loop(progs, "B", gasLimit, 4, gas - 5, [r * 10], Tick(counts, "MUL"), snap, trace) by {
      assert [r, 10] == [] + [r, 10] && [r * 10] == [] + [r * 10];
      StepArith(progs, "B", gasLimit, 3, gas, [r, 10], counts, snap, trace, Mul, "MUL", [], r, 10, 4, gas - 5, [r * 10]);
    }
    assert Loop(progs, "B", gasLimit, 4, gas - 5, [r * 10], Tick(counts, "MUL"), snap, trace) ==
           FrameEnd(Returned(r * 10, gasLimit - gas + 30, Tick(Tick(Tick(Tick(counts, "MUL"), "STORE"), "LOAD"), "RETURN")),
               snap["B" := snap["B"]["myvalue" := r * 10]], trace) by {
      RunBStore(progs, gasLimit, gas - 5, r * 10, Tick(counts, "MUL"), snap, trace);
    }
  }

  /** B after its CALL returned r: PUSH 10 and the rest. */
  lemma {:induction false} RunBPush(progs: Programs, gasLimit: int, gas: int, r: int, counts: Counts, snap: Snapshot, trace: seq<Event>)
    requires "B" in progs && ShapeB(progs["B"]) && progs.Keys <= snap.Keys && 31 <= gas <= gasLimit
    ensures Loop(progs, "B", gasLimit, 2, gas, [r], counts, snap, trace) ==
      FrameEnd(Returned(r * 10, gasLimit - gas + 31, TallyBTail(counts)), snap["B" := snap["B"]["myvalue" := r * 10]], trace)
  {
    assert Loop(progs, "B", gasLimit, 2, gas, [r], counts, snap, trace) ==
           Loop(progs, "B", gasLimit, 3, gas - 1, [r, 10], Tick(counts, "PUSH"), snap, trace) by {
      assert [r] + [10] == [r, 10];
      StepPush(progs, "B", gasLimit, 2, gas, [r], counts, snap, trace, 10, 3, gas - 1, [r, 10]);
    }
    assert Loop(progs, "B", gasLimit, 3, gas - 1, [r, 10], Tick(counts, "PUSH"), snap, trace) ==
           FrameEnd(Returned(r * 10, gasLimit - gas + 31, TallyBTail(counts)), snap["B" := snap["B"]["myvalue" := r * 10]], trace) by {
      RunBMul(progs, gasLimit, gas - 1, r, Tick(counts, "PUSH"), snap, trace);
    }
  }

  /** The frame B's call opens: A on [2] with budget 200. */
  lemma {:induction false} ChildA(progs: Programs, snap: Snapshot, trace: seq<Event>, r: int, snapA: Snapshot)
    requires "A" in progs && ShapeA(progs["A"]) && progs.Keys <= snap.Keys
    requires r == 2 + Lookup(snap["A"], "counter") && snapA == snap["A" := snap["A"]["counter" := r]]
    ensures RunFrame(progs, "A", 200, [2], snap, trace) == FrameEnd(Returned(r, 33, TallyA(map[])), snapA, trace)
  {
    RunA(progs, 200, 2, snap, trace);
  }

  /** B's call to A, with the CALL already charged: A runs on [2] with
      budget 200, uses 33 and returns its new counter r, and B resumes on
      [r] with 33 less gas, A's counts added and the call recorded. */
  lemma {:induction false} CallAFromB(progs: Programs, gas: int, counts: Counts, snap: Snapshot, trace: seq<Event>)
    requires "A" in progs && ShapeA(progs["A"]) && progs.Keys <= snap.Keys && 200 <= gas
    ensures var r := 2 + Lookup(snap["A"], "counter");
      CallStep(progs, "B", "A", 200, 1, gas, [2], counts, snap, trace) ==
      Resumed(gas - 33, [r], Merge(counts, TallyA(map[])), snap["A" := snap["A"]["counter" := r]],
              trace + [CallEvent("B", "A", 200, 33, r)])
  {
    var r := 2 + Lookup(snap["A"], "counter");
    var snapA := snap["A" := snap["A"]["counter" := r]];
    ChildA(progs, snap, trace, r, snapA);
    assert [2] == [] + [2] && [r] == [] + [r];
    CallReturns(progs, "B", "A", 200, 1, gas, [2], counts, snap, trace, [], [2],
                r, 33, TallyA(map[]), snapA, trace, gas - 33, [r]);
  }

  /** B's CALL A 200 1 with 2 on the stack, when A returns r for 33 gas,
      and the rest of B. */
  lemma {:induction false} RunBCall(progs: Programs, gasLimit: int, gas: int, counts: Counts, snap: Snapshot, trace: seq<Event>,
                 r: int, snapA: Snapshot)
    requires "B" in progs && ShapeB(progs["B"]) && progs.Keys <= snap.Keys && 210 <= gas <= gasLimit
    requires CallStep(progs, "B", "A", 200, 1, gas - 10, [2], Tick(counts, "CALL"), snap, trace) ==
             Resumed(gas - 43, [r], Merge(Tick(counts, "CALL"), TallyA(map[])), snapA,
                     trace + [CallEvent("B", "A", 200, 33, r)])
    ensures Loop(progs, "B", gasLimit, 1, gas, [2], counts, snap, trace) ==
      FrameEnd(Returned(r * 10, gasLimit - gas + 74, TallyBTail(Merge(Tick(counts, "CALL"), TallyA(map[])))),
               snapA["B" := snapA["B"]["myvalue" := r * 10]], trace + [CallEvent("B", "A", 200, 33, r)])
  {
    var counts' := Merge(Tick(counts, "CALL"), TallyA(map[]));
    var trace' := trace + [CallEvent("B", "A", 200, 33, r)];
    assert Loop(progs, "B", gasLimit, 1, gas, [2], counts, snap, trace) ==
           Loop(progs, "B", gasLimit, 2, gas - 43, [r], counts', snapA, trace') by {
      StepCall(progs, "B", gasLimit, 1, gas, [2], counts, snap, trace, "A", 200, 1, 2, gas - 43, [r], counts', snapA, trace');
    }
    assert Loop(progs, "B", gasLimit, 2, gas - 43, [r], counts', snapA, trace') ==
           FrameEnd(Returned(r * 10, gasLimit - gas + 74, TallyBTail(counts')), snapA["B" := snapA["B"]["myvalue" := r * 10]], trace') by {
      RunBPush(progs, gasLimit, gas - 43, r, counts', snapA, trace');
    }
  }

  /** B from its CALL line on, A's run included. */
  lemma {:induction false} RunBFromCall(progs: Programs, gasLimit: int, gas: int, counts: Counts, snap: Snapshot, trace: seq<Event>)
    requires "A" in progs && ShapeA(progs["A"]) && "B" in progs && ShapeB(progs["B"])
    requires progs.Keys <= snap.Keys && 210 <= gas <= gasLimit
    ensures var r := 2 + Lookup(snap["A"], "counter");
      var snapA := snap["A" := snap["A"]["counter" := r]];
      Loop(progs, "B", gasLimit, 1, gas, [2], counts, snap, trace) ==
      FrameEnd(Returned(r * 10, gasLimit - gas + 74, TallyBTail(Merge(Tick(counts, "CALL"), TallyA(map[])))),
               snapA["B" := snapA["B"]["myvalue" := r * 10]], trace + [CallEvent("B", "A", 200, 33, r)])
  {
    var r := 2 + Lookup(snap["A"], "counter");
    CallAFromB(progs, gas - 10, Tick(counts, "CALL"), snap, trace);
    RunBCall(progs, gasLimit, gas, counts, snap, trace, r, snap["A" := snap["A"]["counter" := r]]);
  }

  /** B from its first line. */
  lemma {:induction false} RunBPush2(progs: Programs, gasLimit: int, counts: Counts, snap: Snapshot, trace: seq<Event>)
    requires "A" in progs && ShapeA(progs["A"]) && "B" in progs && ShapeB(progs["B"])
    requires progs.Keys <= snap.Keys && 211 <= gasLimit
    ensures var r := 2 + Lookup(snap["A"], "counter");
      var snapA := snap["A" := snap["A"]["counter" := r]];
      Loop(progs, "B", gasLimit, 0, gasLimit, [], counts, snap, trace) ==
      FrameEnd(Returned(r * 10, 75, TallyB(counts)), snapA["B" := snapA["B"]["myvalue" := r * 10]],
               trace + [CallEvent("B", "A", 200, 33, r)])
  {
    var r := 2 + Lookup(snap["A"], "counter");
    var snapA := snap["A" := snap["A"]["counter" := r]];
    assert Loop(progs, "B", gasLimit, 0, gasLimit, [], counts, snap, trace) ==
           Loop(progs, "B", gasLimit, 1, gasLimit - 1, [2], Tick(counts, "PUSH"), snap, trace) by {
      assert [2] == [] + [2];
      StepPush(progs, "B", gasLimit, 0, gasLimit, [], counts, snap, trace, 2, 1, gasLimit - 1, [2]);
    }
    assert Loop(progs, "B", gasLimit, 1, gasLimit - 1, [2], Tick(counts, "PUSH"), snap, trace) ==
           FrameEnd(Returned(r * 10, 75, TallyB(counts)), snapA["B" := snapA["B"]["myvalue" := r * 10]],
               trace + [CallEvent("B", "A", 200, 33, r)]) by {
      RunBFromCall(progs, gasLimit, gasLimit - 1, Tick(counts, "PUSH"), snap, trace);
    }
  }

  /** One run of B with a budget of at least 211: A's counter grows by 2, B
      stores and returns ten times A's new counter, for 75 gas in all, and
      the call to A is recorded. */
  lemma {:induction false} RunB(progs: Programs, gasLimit: int, snap: Snapshot, trace: seq<Event>)
    requires "A" in progs && ShapeA(progs["A"]) && "B" in progs && ShapeB(progs["B"])
    requires progs.Keys <= snap.Keys && 211 <= gasLimit
    ensures var r := 2 + Lookup(snap["A"], "counter");
      RunFrame(progs, "B", gasLimit, [], snap, trace) ==
      FrameEnd(Returned(r * 10, 75, TallyB(map[])), Put(Put(snap, "A", "counter", r), "B", "myvalue", r * 10),
               trace + [CallEvent("B", "A", 200, 33, r)])
  {
    RunBPush2(progs, gasLimit, map[], snap, trace);
  }

  // ---------------------------------------------------------------------
  // The four demonstration transactions
  // ---------------------------------------------------------------------

  /** Any transaction to A with argument x and at least 33 gas, in a world
      where A's code decodes as above and A's counter is counter: it
      succeeds, adds x to the counter, returns the new counter and records
      nothing. */
  lemma {:induction false} TransactA(codes: Codes, stores: Snapshot, gasLimit: int, x: int, counter: int)
    requires codes.Keys == stores.Keys && "A" in codes && ShapeA(CompileAll(codes)["A"]) && 33 <= gasLimit
    requires Lookup(stores["A"], "counter") == counter
    ensures var r := x + counter;
      Transact(codes, stores, "A", gasLimit, [x]) ==
      TxEnd(Completed(true, Some(r), 33, TallyA(map[]), []), Put(stores, "A", "counter", r))
  {
    var r := x + counter;
    RootA(CompileAll(codes), gasLimit, x, stores, r);
    TransactReturns(codes, stores, "A", gasLimit, [x], FrameEnd(Returned(r, 33, TallyA(map[])), Put(stores, "A", "counter", r), []));
  }

  /** A as the root frame of a transaction. */
  lemma {:induction false} RootA(progs: Programs, gasLimit: int, x: int, stores: Snapshot, r: int)
    requires "A" in progs && ShapeA(progs["A"]) && progs.Keys <= stores.Keys && 33 <= gasLimit
    requires r == x + Lookup(stores["A"], "counter")
    ensures RunFrame(progs, "A", gasLimit, [x], stores, []) ==
      FrameEnd(Returned(r, 33, TallyA(map[])), Put(stores, "A", "counter", r), [])
  {
    RunA(progs, gasLimit, x, stores, []);
  }

  /** Any transaction to B with at least 211 gas, in a world where A and B
      decode as above and A's counter is counter: it succeeds, A's counter
      grows by 2, B stores and returns ten times the new counter, and the
      call to A is the one trace entry. */
  lemma {:induction false} TransactB(codes: Codes, stores: Snapshot, gasLimit: int, counter: int)
    requires codes.Keys == stores.Keys && 211 <= gasLimit
    requires "A" in codes && ShapeA(CompileAll(codes)["A"]) && "B" in codes && ShapeB(CompileAll(codes)["B"])
    requires Lookup(stores["A"], "counter") == counter
    ensures var r := 2 + counter;
      Transact(codes, stores, "B", gasLimit, []) ==
      TxEnd(Completed(true, Some(r * 10), 75, TallyB(map[]), [CallEvent("B", "A", 200, 33, r)]),
            Put(Put(stores, "A", "counter", r), "B", "myvalue", r * 10))
  {
    var r := 2 + counter;
    RootB(CompileAll(codes), gasLimit, stores, r);
    TransactReturns(codes, stores, "B", gasLimit, [],
      FrameEnd(Returned(r * 10, 75, TallyB(map[])), Put(Put(stores, "A", "counter", r), "B", "myvalue", r * 10),
               [CallEvent("B", "A", 200, 33, r)]));
  }

  /** B as the root frame of a transaction, whose trace starts empty. */
  lemma {:induction false} RootB(progs: Programs, gasLimit: int, stores: Snapshot, r: int)
    requires "A" in progs && ShapeA(progs["A"]) && "B" in progs && ShapeB(progs["B"])
    requires progs.Keys <= stores.Keys && 211 <= gasLimit && r == 2 + Lookup(stores["A"], "counter")
    ensures RunFrame(progs, "B", gasLimit, [], stores, []) ==
      FrameEnd(Returned(r * 10, 75, TallyB(map[])), Put(Put(stores, "A", "counter", r), "B", "myvalue", r * 10),
               [CallEvent("B", "A", 200, 33, r)])
  {
    var event := CallEvent("B", "A", 200, 33, r);
    RunB(progs, gasLimit, stores, []);
    assert [] + [event] == [event];
  }

  /** A transaction whose root frame returns reports that frame's result and
      trace, and commits its staged storages. */
  lemma TransactReturns(codes: Codes, stores: Snapshot, to: string, gasLimit: int, args: seq<int>, e: FrameEnd)
    requires codes.Keys == stores.Keys
    requires RunFrame(CompileAll(codes), to, gasLimit, args, stores, []) == e && e.outcome.Returned?
    ensures Transact(codes, stores, to, gasLimit, args) ==
      TxEnd(Completed(true, Some(e.outcome.ret), e.outcome.gasUsed, e.outcome.counts, e.trace), e.snap)
  {
  }

  /** The storages with key of contract addr set to v. */
  function Put(stores: Snapshot, addr: string, key: string, v: int): (s: Snapshot)
    requires addr in stores
    ensures s.Keys == stores.Keys && Lookup(s[addr], key) == v
  {
    stores[addr := stores[addr][key := v]]
  }

  /** Every storage right after deployment, and after each transaction. */
  const Stores0: Snapshot := map["A" := map[], "B" := map[]]
  const Stores1: Snapshot := Put(Stores0, "A", "counter", 7)
  const Stores2: Snapshot := Put(Put(Stores1, "A", "counter", 9), "B", "myvalue", 90)
  const Stores3: Snapshot := Put(Stores2, "A", "counter", 12)
  const Stores4: Snapshot := Put(Put(Stores3, "A", "counter", 14), "B", "myvalue", 140)

  /** What each demonstration transaction reads of the storages it starts
      from: every deployed contract has one, and A's counter. */
  lemma Before1()
    ensures Stores0.Keys == DemoCodes.Keys && Lookup(Stores0["A"], "counter") == 0
  {
    DemoShapes();
  }

  lemma Before2()
    ensures Stores1.Keys == DemoCodes.Keys && Lookup(Stores1["A"], "counter") == 7
  {
    Before1();
  }

  lemma Before3()
    ensures Stores2.Keys == DemoCodes.Keys && Lookup(Stores2["A"], "counter") == 9
  {
    Before2();
    assert Stores2["A"] == Put(Stores1, "A", "counter", 9)["A"];
  }

  lemma Before4()
    ensures Stores3.Keys == DemoCodes.Keys && Lookup(Stores3["A"], "counter") == 12
  {
    Before3();
  }

  /** A with argument 7 and 500 gas, on fresh storage: returns 7 for 33 gas
      and commits counter = 7. */
  lemma {:induction false} Transaction1()
    ensures Transact(DemoCodes, Stores0, "A", 500, [7]) ==
            TxEnd(Completed(true, Some(7), 33, TallyA(map[]), []), Stores1)
  {
    DemoShapes();
    Before1();
    TransactA(DemoCodes, Stores0, 500, 7, 0);
  }

  /** B with 800 gas: A's counter goes from 7 to 9, B returns and stores 90,
      for 75 gas, and the call to A (budget 200, 33 used, 9 returned) is the
      only trace entry. */
  lemma {:induction false} Transaction2()
    ensures Transact(DemoCodes, Stores1, "B", 800, []) ==
            TxEnd(Completed(true, Some(90), 75, TallyB(map[]), [CallEvent("B", "A", 200, 33, 9)]), Stores2)
  {
    DemoShapes();
    Before2();
    TransactB(DemoCodes, Stores1, 800, 7);
  }

  /** A with argument 3 and 300 gas: the counter goes from 9 to 12, which
      is returned. */
  lemma {:induction false} Transaction3()
    ensures Transact(DemoCodes, Stores2, "A", 300, [3]) ==
            TxEnd(Completed(true, Some(12), 33, TallyA(map[]), []), Stores3)
  {
    DemoShapes();
    Before3();
    TransactA(DemoCodes, Stores2, 300, 3, 9);
  }

  /** B again: A's counter goes from 12 to 14, and B returns and stores
      140. */
  lemma {:induction false} Transaction4()
    ensures Transact(DemoCodes, Stores3, "B", 800, []) ==
            TxEnd(Completed(true, Some(140), 75, TallyB(map[]), [CallEvent("B", "A", 200, 33, 14)]), Stores4)
  {
    DemoShapes();
    Before4();
    TransactB(DemoCodes, Stores3, 800, 12);
  }
}
