/** Instruction text, its decoding into opcodes, and the static gas table.

    A contract's code is a list of instruction lines.  Each line is modelled
    after whitespace splitting: a sequence of tokens, where a blank line is the
    empty sequence.  The first token, upper-cased, names the opcode; the rest
    are its operands. */
module VmOps {

  datatype Option<T> = None | Some(value: T)

  /** One instruction line, already split into tokens. */
  type Instr = seq<string>

  /** The instruction list of a contract. */
  type Code = seq<Instr>

  // ---------------------------------------------------------------------
  // Opcode names
  // ---------------------------------------------------------------------

  function UpperChar(c: char): char {
    if 'a' <= c <= 'z' then (c as int - 'a' as int + 'A' as int) as char else c
  }

  /** Upper-casing of the opcode token (ASCII letters only). */
  function Upper(s: string): string {
    if s == [] then [] else [UpperChar(s[0])] + Upper(s[1..])
  }

  predicate IsCapitals(s: string) {
    forall i | 0 <= i < |s| :: 'A' <= s[i] <= 'Z'
  }

  /** Upper-casing leaves a name that is already in capitals untouched, so
      every canonical opcode name decodes as itself. */
  lemma {:induction false} UpperOfCapitals(s: string)
    requires IsCapitals(s)
    ensures Upper(s) == s
  {
    if s != [] {
      assert IsCapitals(s[1..]) by {
        forall i | 0 <= i < |s[1..]| ensures 'A' <= s[1..][i] <= 'Z' {
          assert s[1..][i] == s[i + 1];
        }
      }
      UpperOfCapitals(s[1..]);
    }
  }

  // ---------------------------------------------------------------------
  // Integer operands: decimal text as accepted by Python's int()
  // ---------------------------------------------------------------------

  predicate IsDigit(c: char) { '0' <= c <= '9' }

  /** A run of decimal digits, possibly with single underscores between
      two digits ("1_000"), as int() accepts it. */
  predicate IsDecimal(b: string) {
    |b| > 0 &&
    forall i | 0 <= i < |b| ::
      IsDigit(b[i]) || (b[i] == '_' && 0 < i && i + 1 < |b| && IsDigit(b[i + 1]))
  }

  /** The value of a decimal run; underscores are skipped. */
  function DecimalValue(b: string): (v: nat) {
    if b == [] then 0
    else
      var c := b[|b| - 1];
      if c == '_' then DecimalValue(b[..|b| - 1])
      else if IsDigit(c) then DecimalValue(b[..|b| - 1]) * 10 + (c as int - '0' as int)
      else DecimalValue(b[..|b| - 1]) * 10
  }

  /** int(token): an optional sign followed by a decimal run, or nothing
      (Python raises ValueError). */
  function ParseInt(s: string): Option<int> {
    if |s| > 0 && (s[0] == '-' || s[0] == '+') then
      if IsDecimal(s[1..]) then
        var magnitude: int := DecimalValue(s[1..]);
        Some(if s[0] == '-' then -magnitude else magnitude)
      else None
    else if IsDecimal(s) then Some(DecimalValue(s))
    else None
  }

  function DigitChar(d: nat): (c: char)
    requires d < 10
    ensures IsDigit(c) && c as int - '0' as int == d
  {
    ('0' as int + d) as char
  }

  /** Decimal text of a natural number, most significant digit first. */
  function ShowNat(n: nat): (s: string)
    ensures |s| > 0
    decreases n
  {
    if n < 10 then [DigitChar(n)] else ShowNat(n / 10) + [DigitChar(n % 10)]
  }

  /** str(n): the text an integer operand is written as. */
  function Show(n: int): string {
    if n < 0 then "-" + ShowNat(-n) else ShowNat(n)
  }

  lemma {:induction false} ShowNatIsDecimal(n: nat)
    ensures IsDecimal(ShowNat(n)) && DecimalValue(ShowNat(n)) == n
    ensures forall i | 0 <= i < |ShowNat(n)| :: IsDigit(ShowNat(n)[i])
    decreases n
  {
    if n >= 10 {
      var s := ShowNat(n / 10);
      ShowNatIsDecimal(n / 10);
      var t := s + [DigitChar(n % 10)];
      assert t[..|t| - 1] == s;
      forall i | 0 <= i < |t| ensures IsDigit(t[i]) {
        if i < |s| { assert t[i] == s[i]; }
      }
    }
  }

  /** int(str(n)) == n: every integer written as text parses back to itself. */
  lemma ParseShow(n: int)
    ensures ParseInt(Show(n)) == Some(n)
  {
    if n < 0 {
      var t := ShowNat(-n);
      ShowNatIsDecimal(-n);
      assert Show(n) == "-" + t;
      assert ("-" + t)[1..] == t;
      assert ("-" + t)[0] == '-';
    } else {
      var t := ShowNat(n);
      ShowNatIsDecimal(n);
      assert Show(n) == t;
      assert IsDigit(t[0]);
    }
  }

  // ---------------------------------------------------------------------
  // Opcodes
  // ---------------------------------------------------------------------

  datatype ArithKind = Add | Sub | Mul | Div

  /** What an instruction line does, decided once from its tokens.
      Malformed: a known opcode with too few operands (a VM error).
      BadOperand: an operand that int() rejects (a ValueError, which the
      interpreter does not catch).
      Unknown: any other opcode name. */
  datatype Op =
    | Push(value: int)
    | Pop
    | Arith(kind: ArithKind)
    | Load(key: string)
    | Store(key: string)
    | Log
    | Call(callee: string, gas: int, nargs: int)
    | Return
    | Malformed
    | BadOperand
    | Unknown
  {
    predicate WellFormed() { !Malformed? && !BadOperand? && !Unknown? }
  }

  /** A decoded line: blank, or the upper-cased opcode name (what gas and the
      per-opcode counters are keyed by) with its meaning. */
  datatype Decoded = Blank | Instruction(name: string, op: Op)

  /** A decoded line as decoding produces it: a CALL is always charged under
      the name CALL. */
  type Line = d: Decoded | d.Instruction? && d.op.Call? ==> d.name == "CALL" witness Blank

  function DecodeOp(name: string, args: seq<string>): (op: Op)
    ensures op.Call? ==> name == "CALL"
    ensures op.Return? ==> name == "RETURN"
  {
    if name == "PUSH" then
      if |args| < 1 then Malformed
      else match ParseInt(args[0])
        case None => BadOperand
        case Some(v) => Push(v)
    else if name == "POP" then Pop
    else if name == "ADD" then Arith(Add)
    else if name == "SUB" then Arith(Sub)
    else if name == "MUL" then Arith(Mul)
    else if name == "DIV" then Arith(Div)
    else if name == "LOAD" || name == "SLOAD" then
      if |args| < 1 then Malformed else Load(args[0])
    else if name == "STORE" || name == "SSTORE" then
      if |args| < 1 then Malformed else Store(args[0])
    else if name == "LOG" then Log
    else if name == "CALL" then
      if |args| < 3 then Malformed
      else match (ParseInt(args[1]), ParseInt(args[2]))
        case (Some(g), Some(n)) => Call(args[0], g, n)
        case _ => BadOperand
    else if name == "RETURN" then Return
    else Unknown
  }

  /** The three ways a line's tokens are rejected.  A known opcode with too
      few operands is malformed; a PUSH value or a CALL amount that int()
      rejects is a bad operand; a name outside the cost table and the two
      storage aliases is unknown. */
  lemma DecodeOpFaults(name: string, args: seq<string>)
    ensures DecodeOp(name, args) == Malformed <==>
      (name in {"PUSH", "LOAD", "SLOAD", "STORE", "SSTORE"} && |args| < 1) || (name == "CALL" && |args| < 3)
    ensures DecodeOp(name, args) == BadOperand <==>
      (name == "PUSH" && |args| >= 1 && ParseInt(args[0]).None?) ||
      (name == "CALL" && |args| >= 3 && (ParseInt(args[1]).None? || ParseInt(args[2]).None?))
    ensures DecodeOp(name, args) == Unknown <==> name !in OpCost && name != "SLOAD" && name != "SSTORE"
  {
    assert OpCost.Keys == {"PUSH", "POP", "ADD", "SUB", "MUL", "DIV", "LOAD", "STORE", "CALL", "RETURN", "LOG"};
  }

  function Decode(line: Instr): (d: Line)
    ensures d.Blank? <==> line == []
  {
    if line == [] then Blank
    else
      var name := Upper(line[0]);
      Instruction(name, DecodeOp(name, line[1..]))
  }

  /** The canonical name of a well-formed opcode. */
  function Mnemonic(op: Op): (name: string)
    requires op.WellFormed()
    ensures IsCapitals(name)
  {
    match op
    case Push(_) => "PUSH"
    case Pop => "POP"
    case Arith(Add) => "ADD"
    case Arith(Sub) => "SUB"
    case Arith(Mul) => "MUL"
    case Arith(Div) => "DIV"
    case Load(_) => "LOAD"
    case Store(_) => "STORE"
    case Log => "LOG"
    case Call(_, _, _) => "CALL"
    case Return => "RETURN"
  }

  /** The instruction text of a well-formed opcode. */
  function Encode(op: Op): (line: Instr)
    requires op.WellFormed()
  {
    match op
    case Push(v) => ["PUSH", Show(v)]
    case Load(k) => ["LOAD", k]
    case Store(k) => ["STORE", k]
    case Call(c, g, n) => ["CALL", c, Show(g), Show(n)]
    case _ => [Mnemonic(op)]
  }

  /** Decoding a line whose opcode token is already in capitals. */
  lemma DecodeCapitals(line: Instr)
    requires |line| > 0 && IsCapitals(line[0])
    ensures Decode(line) == Instruction(line[0], DecodeOp(line[0], line[1..]))
  {
    UpperOfCapitals(line[0]);
  }

  lemma DecodeEncodePush(v: int)
    ensures Decode(Encode(Push(v))) == Instruction("PUSH", Push(v))
  {
    var line := Encode(Push(v));
    assert line == ["PUSH", Show(v)];
    ParseShow(v);
    assert DecodeOp("PUSH", [Show(v)]) == Push(v);
    DecodeCapitals(line);
    assert line[1..] == [Show(v)];
  }

  lemma DecodeEncodeCall(callee: string, g: int, n: int)
    ensures Decode(Encode(Call(callee, g, n))) == Instruction("CALL", Call(callee, g, n))
  {
    var line := Encode(Call(callee, g, n));
    assert line == ["CALL", callee, Show(g), Show(n)];
    ParseShow(g);
    ParseShow(n);
    assert DecodeOp("CALL", [callee, Show(g), Show(n)]) == Call(callee, g, n);
    DecodeCapitals(line);
    assert line[1..] == [callee, Show(g), Show(n)];
  }

  lemma DecodeEncodeKey(op: Op)
    requires op.Load? || op.Store?
    ensures Decode(Encode(op)) == Instruction(Mnemonic(op), op)
  {
    var line := Encode(op);
    DecodeCapitals(line);
    assert line[1..] == [op.key];
  }

  lemma DecodeEncodeArith(op: Op)
    requires op.Arith?
    ensures Decode(Encode(op)) == Instruction(Mnemonic(op), op)
  {
    DecodeCapitals(Encode(op));
  }

  lemma DecodeEncodeBare(op: Op)
    requires op.Pop? || op.Log? || op.Return?
    ensures Decode(Encode(op)) == Instruction(Mnemonic(op), op)
  {
    DecodeCapitals(Encode(op));
  }

  /** Decoding the text of an opcode gives back that opcode, under its
      canonical name. */
  lemma DecodeEncode(op: Op)
    requires op.WellFormed()
    ensures Decode(Encode(op)) == Instruction(Mnemonic(op), op)
  {
    if op.Push? {
      DecodeEncodePush(op.value);
    } else if op.Call? {
      DecodeEncodeCall(op.callee, op.gas, op.nargs);
    } else if op.Load? || op.Store? {
      DecodeEncodeKey(op);
    } else if op.Arith? {
      DecodeEncodeArith(op);
    } else {
      DecodeEncodeBare(op);
    }
  }

  // ---------------------------------------------------------------------
  // Gas
  // ---------------------------------------------------------------------

  /** The base cost table, keyed by upper-cased opcode name. */
  const OpCost: map<string, nat> := map[
    "PUSH" := 1, "POP" := 1,
    "ADD" := 3, "SUB" := 3, "MUL" := 5, "DIV" := 5,
    "LOAD" := 5, "STORE" := 20,
    "CALL" := 10, "RETURN" := 0,
    "LOG" := 1
  ]

  /** The gas an opcode name is charged: its table entry, or 1 when the name
      is not in the table (unknown opcodes and the SLOAD/SSTORE aliases). */
  function Cost(name: string): (c: nat)
    ensures c <= 20
    ensures name !in OpCost ==> c == 1
  {
    if name in OpCost then OpCost[name] else 1
  }
}
