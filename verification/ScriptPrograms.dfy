/** Structured scripts, their byte encoding, and the meaning they are supposed to have. */
module ScriptPrograms {
  import opened Wrappers
  import opened Bytes
  import opened Script

  datatype Prog = End | Then(first: Instr, rest: Prog)

  datatype Instr =
    | PushData(data: Bytes)
    | Plain(op: Byte)
    | If(thn: Prog)
    | IfElse(thn: Prog, els: Prog)

  predicate WellFormed(p: Prog)
    decreases p
  {
    p.End? || (WellFormedInstr(p.first) && WellFormed(p.rest))
  }

  predicate WellFormedInstr(i: Instr)
    decreases i
  {
    match i
    case PushData(data) => |data| <= 255
    case Plain(op) => !IsControl(op)
    case If(thn) => WellFormed(thn)
    case IfElse(thn, els) => WellFormed(thn) && WellFormed(els)
  }

  function Encode(p: Prog): Bytes
    requires WellFormed(p)
    decreases p
  {
    if p.End? then [] else EncodeInstr(p.first) + Encode(p.rest)
  }

  function EncodeInstr(i: Instr): Bytes
    requires WellFormedInstr(i)
    decreases i
  {
    match i
    case PushData(data) => [OP_PUSH, |data|] + data
    case Plain(op) => [op]
    case If(thn) => [OP_IF] + Encode(thn) + [OP_ENDIF]
    case IfElse(thn, els) => [OP_IF] + Encode(thn) + [OP_ELSE] + Encode(els) + [OP_ENDIF]
  }

  // ---------------------------------------------------------------- intended meaning

  datatype Result = Done(ops: nat, stack: Stack) | Stopped(outcome: Outcome)

  /** Evaluates only the branches that are chosen, counting the opcodes that are dispatched. */
  function Eval(exec: Semantics, p: Prog, ops: nat, st: Stack): Result
    decreases p
  {
    if p.End? then Done(ops, st)
    else
      match EvalInstr(exec, p.first, ops, st)
      case Stopped(outcome) => Stopped(outcome)
      case Done(ops', st') => Eval(exec, p.rest, ops', st')
  }

  function EvalInstr(exec: Semantics, i: Instr, ops: nat, st: Stack): Result
    decreases i
  {
    if ops > MAX_SCRIPT_OPS then Stopped(Failed(OpLimit))
    else
      match i
      case PushData(data) => OfEffect(Push(st, data), ops + 1)
      case Plain(op) => OfEffect(exec(op, st), ops + 1)
      case If(thn) =>
        if st == [] then Stopped(Failed(StackUnderflow))
        else if Truthy(Top(st)) then Close(Eval(exec, thn, ops + 1, Below(st)))
        else Done(ops + 1, Below(st))
      case IfElse(thn, els) =>
        if st == [] then Stopped(Failed(StackUnderflow))
        else if Truthy(Top(st)) then Close(Eval(exec, thn, ops + 1, Below(st)))
        else Close(Eval(exec, els, ops + 1, Below(st)))
  }

  function OfEffect(e: Effect, ops: nat): Result
  {
    match e
    case Abort(error) => Stopped(Failed(error))
    case Continue(st) => Done(ops, st)
  }

  /** An executed branch dispatches one closing opcode, its OP_ELSE or its OP_ENDIF. */
  function Close(r: Result): Result
  {
    if r.Stopped? then r
    else if r.ops > MAX_SCRIPT_OPS then Stopped(Failed(OpLimit))
    else Done(r.ops + 1, r.stack)
  }

  function Conclude(r: Result): Outcome
  {
    match r
    case Done(_, st) => Verdict(st)
    case Stopped(outcome) => outcome
  }

  // ---------------------------------------------------------------- programs inside code

  /** Length of the encoding. */
  function Len(p: Prog): nat
    decreases p
  {
    if p.End? then 0 else LenInstr(p.first) + Len(p.rest)
  }

  function LenInstr(i: Instr): (n: nat)
    ensures n > 0
    decreases i
  {
    match i
    case PushData(data) => 2 + |data|
    case Plain(_) => 1
    case If(thn) => 2 + Len(thn)
    case IfElse(thn, els) => 3 + Len(thn) + Len(els)
  }

  lemma {:induction false} EncodeLength(p: Prog)
    requires WellFormed(p)
    ensures |Encode(p)| == Len(p)
    decreases p
  {
    if p.Then? {
      EncodeLength(p.rest);
      match p.first
      case PushData(_) =>
      case Plain(_) =>
      case If(thn) => EncodeLength(thn);
      case IfElse(thn, els) => EncodeLength(thn); EncodeLength(els);
    }
  }

  predicate ByteAt(code: Bytes, idx: nat, op: Byte)
  {
    idx < |code| && code[idx] == op
  }

  predicate BytesAt(code: Bytes, idx: nat, data: Bytes)
  {
    idx + |data| <= |code| && forall k :: 0 <= k < |data| ==> code[idx + k] == data[k]
  }

  /** The program stands in the code from an index on. */
  predicate At(code: Bytes, idx: nat, p: Prog)
    decreases p
  {
    p.End? || (InstrAt(code, idx, p.first) && At(code, idx + LenInstr(p.first), p.rest))
  }

  predicate InstrAt(code: Bytes, idx: nat, i: Instr)
    decreases i
  {
    match i
    case PushData(data) =>
      |data| <= 255 && ByteAt(code, idx, OP_PUSH) && ByteAt(code, idx + 1, |data|) && BytesAt(code, idx + 2, data)
    case Plain(op) => !IsControl(op) && ByteAt(code, idx, op)
    case If(thn) =>
      ByteAt(code, idx, OP_IF) && At(code, idx + 1, thn) && ByteAt(code, idx + 1 + Len(thn), OP_ENDIF)
    case IfElse(thn, els) =>
      && ByteAt(code, idx, OP_IF) && At(code, idx + 1, thn)
      && ByteAt(code, idx + 1 + Len(thn), OP_ELSE) && At(code, idx + 2 + Len(thn), els)
      && ByteAt(code, idx + 2 + Len(thn) + Len(els), OP_ENDIF)
  }

  ghost predicate Contains(code: Bytes, idx: nat, part: Bytes)
  {
    idx + |part| <= |code| && code[idx..idx + |part|] == part
  }

  lemma {:induction false} PartsAt(code: Bytes, idx: nat, first: Bytes, second: Bytes)
    requires Contains(code, idx, first + second)
    ensures Contains(code, idx, first) && Contains(code, idx + |first|, second)
  {
    var mid, part := idx + |first|, code[idx..idx + |first| + |second|];
    assert part == first + second;
    assert code[idx..mid] == part[..|first|] == first;
    assert code[mid..mid + |second|] == part[|first|..] == second;
  }

  lemma {:induction false} OpAt(code: Bytes, idx: nat, op: Byte, rest: Bytes)
    requires Contains(code, idx, [op] + rest)
    ensures ByteAt(code, idx, op) && Contains(code, idx + 1, rest)
  {
    PartsAt(code, idx, [op], rest);
    assert code[idx..idx + 1] == [op];
  }

  /** A block between two opcodes. */
  lemma {:induction false} BlockAt(code: Bytes, idx: nat, open: Byte, block: Bytes, close: Byte)
    requires Contains(code, idx, [open] + block + [close])
    ensures ByteAt(code, idx, open) && Contains(code, idx + 1, block) && ByteAt(code, idx + 1 + |block|, close)
  {
    assert [open] + block + [close] == [open] + (block + [close]);
    OpAt(code, idx, open, block + [close]);
    PartsAt(code, idx + 1, block, [close]);
    OpAt(code, idx + 1 + |block|, close, []);
  }

  /** Code that contains the encoding contains the program. */
  lemma {:induction false} EncodedAt(code: Bytes, idx: nat, p: Prog)
    requires WellFormed(p) && Contains(code, idx, Encode(p))
    ensures At(code, idx, p)
    decreases p, 0
  {
    if p.Then? {
      PartsAt(code, idx, EncodeInstr(p.first), Encode(p.rest));
      InstrLength(p.first);
      EncodedInstrAt(code, idx, p.first);
      EncodedAt(code, idx + LenInstr(p.first), p.rest);
    }
  }

  lemma {:induction false} InstrLength(i: Instr)
    requires WellFormedInstr(i)
    ensures |EncodeInstr(i)| == LenInstr(i)
  {
    EncodeLength(Then(i, End));
    assert Encode(Then(i, End)) == EncodeInstr(i);
  }

  lemma {:induction false} EncodedInstrAt(code: Bytes, idx: nat, i: Instr)
    requires WellFormedInstr(i) && Contains(code, idx, EncodeInstr(i))
    ensures InstrAt(code, idx, i)
    decreases i, 1
  {
    match i
    case PushData(data) => PushAt(code, idx, data);
    case Plain(op) => OpAt(code, idx, op, []);
    case If(thn) =>
      BlockAt(code, idx, OP_IF, Encode(thn), OP_ENDIF);
      EncodedBranchAt(code, idx + 1, thn);
    case IfElse(thn, els) => EncodedIfElseAt(code, idx, thn, els, Encode(thn), Encode(els));
  }

  lemma {:induction false} EncodedIfElseAt(code: Bytes, idx: nat, thn: Prog, els: Prog, a: Bytes, b: Bytes)
    requires WellFormed(thn) && WellFormed(els) && a == Encode(thn) && b == Encode(els)
    requires Contains(code, idx, [OP_IF] + a + [OP_ELSE] + b + [OP_ENDIF])
    ensures InstrAt(code, idx, IfElse(thn, els))
    decreases IfElse(thn, els), 0
  {
    EncodeLength(thn);
    EncodeLength(els);
    var mid := idx + 1 + |a|;
    TwoBlocksAt(code, idx, a, b, mid, mid + 1 + |b|);
    EncodedAt(code, idx + 1, thn);
    EncodedAt(code, mid + 1, els);
    IfElseAt(code, idx, thn, els, mid, mid + 1 + |b|);
  }

  lemma {:induction false} IfElseAt(code: Bytes, idx: nat, thn: Prog, els: Prog, mid: nat, end: nat)
    requires mid == idx + 1 + Len(thn) && end == mid + 1 + Len(els)
    requires ByteAt(code, idx, OP_IF) && ByteAt(code, mid, OP_ELSE) && ByteAt(code, end, OP_ENDIF)
    requires At(code, idx + 1, thn) && At(code, mid + 1, els)
    ensures InstrAt(code, idx, IfElse(thn, els))
  {}

  lemma {:induction false} EncodedBranchAt(code: Bytes, idx: nat, p: Prog)
    requires WellFormed(p) && Contains(code, idx, Encode(p))
    ensures At(code, idx, p) && |Encode(p)| == Len(p)
    decreases p, 1
  {
    EncodeLength(p);
    EncodedAt(code, idx, p);
  }

  lemma {:induction false} PushAt(code: Bytes, idx: nat, data: Bytes)
    requires |data| <= 255 && Contains(code, idx, [OP_PUSH, |data|] + data)
    ensures ByteAt(code, idx, OP_PUSH) && ByteAt(code, idx + 1, |data|) && BytesAt(code, idx + 2, data)
  {}

  lemma {:induction false} TwoBlocksAt(code: Bytes, idx: nat, a: Bytes, b: Bytes, mid: nat, end: nat)
    requires Contains(code, idx, [OP_IF] + a + [OP_ELSE] + b + [OP_ENDIF])
    requires mid == idx + 1 + |a| && end == mid + 1 + |b|
    ensures ByteAt(code, idx, OP_IF) && Contains(code, idx + 1, a) && ByteAt(code, mid, OP_ELSE)
    ensures Contains(code, mid + 1, b) && ByteAt(code, end, OP_ENDIF)
  {
    var front := [OP_IF] + a + [OP_ELSE];
    assert [OP_IF] + a + [OP_ELSE] + b + [OP_ENDIF] == front + (b + [OP_ENDIF]);
    PartsAt(code, idx, front, b + [OP_ENDIF]);
    BlockAt(code, idx, OP_IF, a, OP_ELSE);
    PartsAt(code, mid + 1, b, [OP_ENDIF]);
    OpAt(code, end, OP_ENDIF, []);
  }

  // ---------------------------------------------------------------- the loop of OP_ELSE

  /** A skip loop as a function of index and depth, used below only through its one-round equation. */
  type Skipper = (nat, nat) -> Option<nat>

  ghost predicate HopsAt(skip: Skipper, code: Bytes, elseCloses: bool, idx: nat, depth: nat)
  {
    && (depth == 0 ==> skip(idx, depth) == Some(idx))
    && (depth > 0 && idx < |code| && (code[idx] == OP_PUSH ==> idx + 1 < |code|) ==>
          skip(idx, depth) == skip(Hop(code, idx), Level(code[idx], depth, elseCloses)))
  }

  ghost predicate IsSkipper(skip: Skipper, code: Bytes, elseCloses: bool)
  {
    forall idx, depth :: HopsAt(skip, code, elseCloses, idx, depth)
  }

  lemma {:induction false} SkipIsSkipper(code: Bytes, elseCloses: bool)
    ensures IsSkipper((idx, depth) => Skip(code, idx, depth, elseCloses), code, elseCloses)
  {}

  lemma {:induction false} HopOp(skip: Skipper, code: Bytes, elseCloses: bool, idx: nat, depth: nat, op: Byte)
    requires IsSkipper(skip, code, elseCloses) && depth > 0 && ByteAt(code, idx, op) && op != OP_PUSH
    ensures skip(idx, depth) == skip(idx + 1, Level(op, depth, elseCloses))
  {
    assert HopsAt(skip, code, elseCloses, idx, depth);
  }

  lemma {:induction false} HopPush(skip: Skipper, code: Bytes, elseCloses: bool, idx: nat, depth: nat, len: Byte)
    requires IsSkipper(skip, code, elseCloses) && depth > 0
    requires ByteAt(code, idx, OP_PUSH) && ByteAt(code, idx + 1, len)
    ensures skip(idx, depth) == skip(idx + 2 + len, depth)
  {
    assert HopsAt(skip, code, elseCloses, idx, depth);
  }

  /** It passes over any block, whatever conditionals that contains. */
  lemma {:induction false} ElseSkipPasses(skip: Skipper, code: Bytes, idx: nat, p: Prog, depth: nat, end: nat)
    requires IsSkipper(skip, code, false) && At(code, idx, p) && depth > 0 && end == idx + Len(p)
    ensures skip(idx, depth) == skip(end, depth)
    decreases p, 0
  {
    if p.Then? {
      var mid := idx + LenInstr(p.first);
      ElseSkipPassesInstr(skip, code, idx, p.first, depth, mid);
      ElseSkipPasses(skip, code, mid, p.rest, depth, end);
    }
  }

  lemma {:induction false} ElseSkipPassesInstr(skip: Skipper, code: Bytes, idx: nat, i: Instr, depth: nat, end: nat)
    requires IsSkipper(skip, code, false) && InstrAt(code, idx, i) && depth > 0 && end == idx + LenInstr(i)
    ensures skip(idx, depth) == skip(end, depth)
    decreases i, 0
  {
    match i
    case PushData(data) =>
      HopPush(skip, code, false, idx, depth, |data|);
    case Plain(op) =>
      HopOp(skip, code, false, idx, depth, op);
    case If(thn) =>
      var close := idx + 1 + Len(thn);
      HopOp(skip, code, false, idx, depth, OP_IF);
      ElseSkipPasses(skip, code, idx + 1, thn, depth + 1, close);
      HopOp(skip, code, false, close, depth + 1, OP_ENDIF);
    case IfElse(thn, els) =>
      var mid := idx + 1 + Len(thn);
      var close := mid + 1 + Len(els);
      HopOp(skip, code, false, idx, depth, OP_IF);
      ElseSkipPasses(skip, code, idx + 1, thn, depth + 1, mid);
      HopOp(skip, code, false, mid, depth + 1, OP_ELSE);
      ElseSkipPasses(skip, code, mid + 1, els, depth + 1, close);
      HopOp(skip, code, false, close, depth + 1, OP_ENDIF);
  }

  /** OP_ELSE resumes behind the OP_ENDIF of its conditional. */
  lemma {:induction false} ElseLandsRight(code: Bytes, idx: nat, els: Prog)
    requires At(code, idx, els) && ByteAt(code, idx + Len(els), OP_ENDIF)
    ensures Skip(code, idx, 1, false) == Some(idx + Len(els) + 1)
  {
    SkipIsSkipper(code, false);
    ElseLands((idx, depth) => Skip(code, idx, depth, false), code, idx, els);
  }

  lemma {:induction false} ElseLands(skip: Skipper, code: Bytes, idx: nat, els: Prog)
    requires IsSkipper(skip, code, false) && At(code, idx, els) && ByteAt(code, idx + Len(els), OP_ENDIF)
    ensures skip(idx, 1) == Some(idx + Len(els) + 1)
  {
    ElseSkipPasses(skip, code, idx, els, 1, idx + Len(els));
    HopOp(skip, code, false, idx + Len(els), 1, OP_ENDIF);
    assert HopsAt(skip, code, false, idx + Len(els) + 1, 0);
  }

  // ---------------------------------------------------------------- the loop of OP_IF

  /** Conditionals with an ELSE of their own, at any depth. */
  function ElseCount(p: Prog): nat
    decreases p
  {
    if p.End? then 0 else ElseCountInstr(p.first) + ElseCount(p.rest)
  }

  function ElseCountInstr(i: Instr): nat
    decreases i
  {
    match i
    case PushData(_) => 0
    case Plain(_) => 0
    case If(thn) => ElseCount(thn)
    case IfElse(thn, els) => 1 + ElseCount(thn) + ElseCount(els)
  }

  /** From idx to end it loses `lost` levels, and stops in between when it has no more to lose. */
  ghost predicate Loses(skip: Skipper, idx: nat, end: nat, lost: nat, depth: nat)
  {
    var r := skip(idx, depth);
    if lost < depth then r == skip(end, depth - lost) else r.Some? && idx < r.value <= end
  }

  lemma {:induction false} LosesBoth(skip: Skipper, idx: nat, mid: nat, end: nat, first: nat, second: nat, lost: nat,
                                     depth: nat)
    requires lost == first + second && idx <= mid <= end && Loses(skip, idx, mid, first, depth)
    requires first < depth ==> Loses(skip, mid, end, second, depth - first)
    ensures Loses(skip, idx, end, lost, depth)
  {}

  /** It passes one closing opcode: a level lost, or the end of the loop. */
  lemma {:induction false} LosesClosing(skip: Skipper, code: Bytes, idx: nat, end: nat, depth: nat, op: Byte)
    requires IsSkipper(skip, code, true) && depth > 0 && end == idx + 1
    requires ByteAt(code, idx, op) && (op == OP_ELSE || op == OP_ENDIF)
    ensures Loses(skip, idx, end, 1, depth)
  {
    HopOp(skip, code, true, idx, depth, op);
    assert HopsAt(skip, code, true, end, 0);
  }

  lemma {:induction false} LosesAfterIf(skip: Skipper, code: Bytes, idx: nat, end: nat, lost: nat, depth: nat)
    requires IsSkipper(skip, code, true) && depth > 0 && ByteAt(code, idx, OP_IF)
    requires Loses(skip, idx + 1, end, lost + 1, depth + 1)
    ensures Loses(skip, idx, end, lost, depth)
  {
    HopOp(skip, code, true, idx, depth, OP_IF);
  }

  /** The loop of OP_IF loses one level for every ELSE inside the block it passes over. */
  lemma {:induction false} IfSkipLosesLevels(skip: Skipper, code: Bytes, idx: nat, end: nat, p: Prog, lost: nat,
                                             depth: nat)
    requires IsSkipper(skip, code, true) && At(code, idx, p) && depth > 0
    requires end == idx + Len(p) && lost == ElseCount(p)
    ensures Loses(skip, idx, end, lost, depth)
    decreases p, 1
  {
    if p.Then? {
      IfSkipLosesThen(skip, code, idx, p.first, p.rest, idx + LenInstr(p.first), end,
                      ElseCountInstr(p.first), ElseCount(p.rest), lost, depth);
    }
  }

  lemma {:induction false} IfSkipLosesThen(skip: Skipper, code: Bytes, idx: nat, i: Instr, rest: Prog, mid: nat,
                                           end: nat, first: nat, second: nat, lost: nat, depth: nat)
    requires IsSkipper(skip, code, true) && depth > 0 && mid == idx + LenInstr(i) && end == mid + Len(rest)
    requires InstrAt(code, idx, i) && At(code, mid, rest)
    requires first == ElseCountInstr(i) && second == ElseCount(rest) && lost == first + second
    ensures Loses(skip, idx, end, lost, depth)
    decreases Then(i, rest), 0
  {
    IfSkipLosesInstr(skip, code, idx, mid, i, first, depth);
    if first < depth { IfSkipLosesLevels(skip, code, mid, end, rest, second, depth - first); }
    LosesBoth(skip, idx, mid, end, first, second, lost, depth);
  }

  lemma {:induction false} IfSkipLosesInstr(skip: Skipper, code: Bytes, idx: nat, end: nat, i: Instr, lost: nat,
                                            depth: nat)
    requires IsSkipper(skip, code, true) && InstrAt(code, idx, i) && depth > 0
    requires end == idx + LenInstr(i) && lost == ElseCountInstr(i)
    ensures Loses(skip, idx, end, lost, depth)
    decreases i, 1
  {
    match i
    case PushData(data) => HopPush(skip, code, true, idx, depth, |data|);
    case Plain(op) => HopOp(skip, code, true, idx, depth, op);
    case If(thn) =>
      BlockLoses(skip, code, idx + 1, end, thn, lost + 1, depth + 1, OP_ENDIF);
      LosesAfterIf(skip, code, idx, end, lost, depth);
    case IfElse(thn, els) =>
      BranchesLose(skip, code, idx + 1, idx + 1 + Len(thn), end, thn, els, lost + 1, depth + 1);
      LosesAfterIf(skip, code, idx, end, lost, depth);
  }

  lemma {:induction false} BranchesLose(skip: Skipper, code: Bytes, idx: nat, m: nat, end: nat, thn: Prog, els: Prog,
                                        lost: nat, depth: nat)
    requires IsSkipper(skip, code, true) && depth > 0 && m == idx + Len(thn) && end == m + 2 + Len(els)
    requires At(code, idx, thn) && ByteAt(code, m, OP_ELSE)
    requires At(code, m + 1, els) && ByteAt(code, end - 1, OP_ENDIF)
    requires lost == ElseCount(thn) + ElseCount(els) + 2
    ensures Loses(skip, idx, end, lost, depth)
    decreases IfElse(thn, els), 0
  {
    var first, second := ElseCount(thn) + 1, ElseCount(els) + 1;
    BlockLoses(skip, code, idx, m + 1, thn, first, depth, OP_ELSE);
    if first < depth { BlockLoses(skip, code, m + 1, end, els, second, depth - first, OP_ENDIF); }
    LosesBoth(skip, idx, m + 1, end, first, second, lost, depth);
  }

  /** A block with its closing opcode. */
  lemma {:induction false} BlockLoses(skip: Skipper, code: Bytes, idx: nat, end: nat, p: Prog, lost: nat, depth: nat,
                                      op: Byte)
    requires IsSkipper(skip, code, true) && At(code, idx, p) && depth > 0
    requires end == idx + Len(p) + 1 && ByteAt(code, end - 1, op) && (op == OP_ELSE || op == OP_ENDIF)
    requires lost == ElseCount(p) + 1
    ensures Loses(skip, idx, end, lost, depth)
    decreases p, 2
  {
    var mid, inside := end - 1, lost - 1;
    IfSkipLosesLevels(skip, code, idx, mid, p, inside, depth);
    if inside < depth { LosesClosing(skip, code, mid, end, depth - inside, op); }
    LosesBoth(skip, idx, mid, end, inside, 1, lost, depth);
  }

  /** Exactly when OP_IF with a false condition resumes behind its THEN branch: the branch contains
      no conditional with its own ELSE. Otherwise it resumes inside the branch it should skip. */
  lemma {:induction false} IfLandsRight(code: Bytes, idx: nat, thn: Prog, op: Byte)
    requires At(code, idx, thn) && ByteAt(code, idx + Len(thn), op) && (op == OP_ELSE || op == OP_ENDIF)
    ensures
      var landing := Skip(code, idx, 1, true);
      && landing.Some?
      && (landing.value == idx + Len(thn) + 1 <==> ElseCount(thn) == 0)
      && (ElseCount(thn) > 0 ==> idx < landing.value <= idx + Len(thn))
  {
    SkipIsSkipper(code, true);
    IfLands((idx, depth) => Skip(code, idx, depth, true), code, idx, thn, op);
  }

  lemma {:induction false} IfLands(skip: Skipper, code: Bytes, idx: nat, thn: Prog, op: Byte)
    requires IsSkipper(skip, code, true) && At(code, idx, thn)
    requires ByteAt(code, idx + Len(thn), op) && (op == OP_ELSE || op == OP_ENDIF)
    ensures skip(idx, 1).Some?
    ensures ElseCount(thn) == 0 ==> skip(idx, 1) == Some(idx + Len(thn) + 1)
    ensures ElseCount(thn) > 0 ==> idx < skip(idx, 1).value <= idx + Len(thn)
  {
    IfSkipLosesLevels(skip, code, idx, idx + Len(thn), thn, ElseCount(thn), 1);
    HopOp(skip, code, true, idx + Len(thn), 1, op);
    assert HopsAt(skip, code, true, idx + Len(thn) + 1, 0);
  }

  /** No THEN branch, at any depth, contains a conditional with its own ELSE. */
  predicate Clean(p: Prog)
    decreases p
  {
    p.End? || (CleanInstr(p.first) && Clean(p.rest))
  }

  predicate CleanInstr(i: Instr)
    decreases i
  {
    match i
    case PushData(_) => true
    case Plain(_) => true
    case If(thn) => ElseCount(thn) == 0 && Clean(thn)
    case IfElse(thn, els) => ElseCount(thn) == 0 && Clean(thn) && Clean(els)
  }

  // ---------------------------------------------------------------- the machine meets the meaning

  /** Running to the end, used below only through its one-round equation. */
  type Runner = Config -> Outcome

  ghost predicate RunsAt(run: Runner, exec: Semantics, code: Bytes, cfg: Config)
  {
    cfg.Running? ==> run(cfg) == run(Step(exec, code, cfg))
  }

  ghost predicate HaltsAt(run: Runner, outcome: Outcome)
  {
    run(Halted(outcome)) == outcome
  }

  ghost predicate IsRunner(run: Runner, exec: Semantics, code: Bytes)
  {
    (forall cfg :: RunsAt(run, exec, code, cfg)) && (forall outcome :: HaltsAt(run, outcome))
  }

  lemma {:induction false} FinishIsRunner(exec: Semantics, code: Bytes)
    ensures IsRunner(cfg => Finish(exec, code, cfg), exec, code)
  {}

  /** What is left to run when a part has been evaluated. */
  function Resume(run: Runner, r: Result, idx: nat): Outcome
  {
    match r
    case Done(ops, st) => run(Running(idx, ops, st))
    case Stopped(outcome) => outcome
  }

  lemma {:induction false} RunOnce(run: Runner, exec: Semantics, code: Bytes, cfg: Config, next: Config)
    requires IsRunner(run, exec, code) && cfg.Running? && Step(exec, code, cfg) == next
    ensures run(cfg) == run(next)
    ensures next.Halted? ==> run(cfg) == next.outcome
  {
    assert RunsAt(run, exec, code, cfg);
    if next.Halted? { assert HaltsAt(run, next.outcome); }
  }

  lemma {:induction false} LimitReached(run: Runner, exec: Semantics, code: Bytes, idx: nat, ops: nat, st: Stack)
    requires IsRunner(run, exec, code) && idx < |code| && ops > MAX_SCRIPT_OPS
    ensures run(Running(idx, ops, st)) == Failed(OpLimit)
  {
    RunOnce(run, exec, code, Running(idx, ops, st), Halted(Failed(OpLimit)));
  }

  lemma {:induction false} PushRuns(run: Runner, exec: Semantics, code: Bytes, idx: nat, end: nat, data: Bytes,
                                    ops: nat, st: Stack)
    requires IsRunner(run, exec, code) && InstrAt(code, idx, PushData(data)) && ops <= MAX_SCRIPT_OPS
    requires end == idx + 2 + |data|
    ensures run(Running(idx, ops, st)) == Resume(run, OfEffect(Push(st, data), ops + 1), end)
  {
    StepPush(exec, code, idx, end, data, ops, st);
    RunOnce(run, exec, code, Running(idx, ops, st), Continuing(Push(st, data), end, ops + 1));
  }

  lemma {:induction false} StepPush(exec: Semantics, code: Bytes, idx: nat, end: nat, data: Bytes, ops: nat, st: Stack)
    requires InstrAt(code, idx, PushData(data)) && ops <= MAX_SCRIPT_OPS && end == idx + 2 + |data|
    ensures Step(exec, code, Running(idx, ops, st)) == Continuing(Push(st, data), end, ops + 1)
  {
    assert Slice(code, idx + 2, end) == data;
  }

  lemma {:induction false} PlainRuns(run: Runner, exec: Semantics, code: Bytes, idx: nat, op: Byte, ops: nat, st: Stack)
    requires IsRunner(run, exec, code) && InstrAt(code, idx, Plain(op)) && ops <= MAX_SCRIPT_OPS
    ensures run(Running(idx, ops, st)) == Resume(run, OfEffect(exec(op, st), ops + 1), idx + 1)
  {
    RunOnce(run, exec, code, Running(idx, ops, st), Continuing(exec(op, st), idx + 1, ops + 1));
  }

  /** Dispatching OP_IF: into the branch, or behind its closing opcode at m. */
  lemma {:induction false} IfDispatch(run: Runner, exec: Semantics, code: Bytes, idx: nat, m: nat, ops: nat, st: Stack)
    requires IsRunner(run, exec, code) && ByteAt(code, idx, OP_IF) && ops <= MAX_SCRIPT_OPS
    requires Skip(code, idx + 1, 1, true) == Some(m + 1)
    ensures run(Running(idx, ops, st)) ==
      if st == [] then Failed(StackUnderflow)
      else run(Running(if Truthy(Top(st)) then idx + 1 else m + 1, ops + 1, Below(st)))
  {
    RunOnce(run, exec, code, Running(idx, ops, st),
      if st == [] then Halted(Failed(StackUnderflow))
      else Running(if Truthy(Top(st)) then idx + 1 else m + 1, ops + 1, Below(st)));
  }

  /** The closing opcode of an executed branch, at m, moves on behind the conditional. */
  lemma {:induction false} ClosingRuns(run: Runner, exec: Semantics, code: Bytes, m: nat, end: nat, r: Result)
    requires IsRunner(run, exec, code)
    requires (ByteAt(code, m, OP_ENDIF) && end == m + 1)
          || (ByteAt(code, m, OP_ELSE) && Skip(code, m + 1, 1, false) == Some(end))
    ensures Resume(run, r, m) == Resume(run, Close(r), end)
  {
    if r.Done? {
      if r.ops > MAX_SCRIPT_OPS {
        LimitReached(run, exec, code, m, r.ops, r.stack);
      } else {
        RunOnce(run, exec, code, Running(m, r.ops, r.stack), Running(end, r.ops + 1, r.stack));
      }
    }
  }

  /** Running the bytes of a block inside any code is evaluating it, then going on behind it. */
  lemma {:induction false} BlockRuns(run: Runner, exec: Semantics, code: Bytes, idx: nat, end: nat, p: Prog, ops: nat,
                                     st: Stack)
    requires IsRunner(run, exec, code) && Clean(p) && At(code, idx, p) && end == idx + Len(p)
    ensures run(Running(idx, ops, st)) == Resume(run, Eval(exec, p, ops, st), end)
    decreases p, 1
  {
    if p.Then? {
      ThenRuns(run, exec, code, idx, idx + LenInstr(p.first), end, p.first, p.rest, EvalInstr(exec, p.first, ops, st),
               ops, st);
    }
  }

  lemma {:induction false} ThenRuns(run: Runner, exec: Semantics, code: Bytes, idx: nat, mid: nat, end: nat, i: Instr,
                                    rest: Prog, r: Result, ops: nat, st: Stack)
    requires IsRunner(run, exec, code) && CleanInstr(i) && Clean(rest)
    requires mid == idx + LenInstr(i) && end == mid + Len(rest) && r == EvalInstr(exec, i, ops, st)
    requires InstrAt(code, idx, i) && At(code, mid, rest)
    ensures run(Running(idx, ops, st)) == Resume(run, if r.Done? then Eval(exec, rest, r.ops, r.stack) else r, end)
    decreases Then(i, rest), 0
  {
    InstrRuns(run, exec, code, idx, mid, i, ops, st);
    if r.Done? { BlockRuns(run, exec, code, mid, end, rest, r.ops, r.stack); }
  }

  lemma {:induction false} InstrRuns(run: Runner, exec: Semantics, code: Bytes, idx: nat, end: nat, i: Instr, ops: nat,
                                     st: Stack)
    requires IsRunner(run, exec, code) && CleanInstr(i) && InstrAt(code, idx, i) && end == idx + LenInstr(i)
    ensures run(Running(idx, ops, st)) == Resume(run, EvalInstr(exec, i, ops, st), end)
    decreases i, 1
  {
    if ops > MAX_SCRIPT_OPS {
      LimitReached(run, exec, code, idx, ops, st);
    } else {
      match i
      case PushData(data) => PushRuns(run, exec, code, idx, end, data, ops, st);
      case Plain(op) => PlainRuns(run, exec, code, idx, op, ops, st);
      case If(thn) => IfRuns(run, exec, code, idx, idx + 1 + Len(thn), thn, ops, st);
      case IfElse(thn, els) => IfElseRuns(run, exec, code, idx, idx + 1 + Len(thn), end, thn, els, ops, st);
    }
  }

  lemma {:induction false} IfRuns(run: Runner, exec: Semantics, code: Bytes, idx: nat, m: nat, thn: Prog, ops: nat,
                                  st: Stack)
    requires IsRunner(run, exec, code)
    requires Clean(thn) && ElseCount(thn) == 0 && ops <= MAX_SCRIPT_OPS && m == idx + 1 + Len(thn)
    requires ByteAt(code, idx, OP_IF) && At(code, idx + 1, thn) && ByteAt(code, m, OP_ENDIF)
    ensures run(Running(idx, ops, st)) == Resume(run,
      if st == [] then Stopped(Failed(StackUnderflow))
      else if Truthy(Top(st)) then Close(Eval(exec, thn, ops + 1, Below(st)))
      else Done(ops + 1, Below(st)), m + 1)
    decreases If(thn), 0
  {
    IfLandsRight(code, idx + 1, thn, OP_ENDIF);
    assert Skip(code, idx + 1, 1, true) == Some(m + 1);
    IfDispatch(run, exec, code, idx, m, ops, st);
    if st != [] && Truthy(Top(st)) { BranchRuns(run, exec, code, idx + 1, m, m + 1, thn, ops + 1, Below(st)); }
  }

  /** A whole branch, from its first byte to behind the conditional. */
  lemma {:induction false} BranchRuns(run: Runner, exec: Semantics, code: Bytes, idx: nat, m: nat, end: nat, p: Prog,
                                      ops: nat, st: Stack)
    requires IsRunner(run, exec, code) && Clean(p) && At(code, idx, p) && m == idx + Len(p)
    requires (ByteAt(code, m, OP_ENDIF) && end == m + 1)
          || (ByteAt(code, m, OP_ELSE) && Skip(code, m + 1, 1, false) == Some(end))
    ensures run(Running(idx, ops, st)) == Resume(run, Close(Eval(exec, p, ops, st)), end)
    decreases p, 2
  {
    BlockRuns(run, exec, code, idx, m, p, ops, st);
    ClosingRuns(run, exec, code, m, end, Eval(exec, p, ops, st));
  }

  lemma {:induction false} IfElseRuns(run: Runner, exec: Semantics, code: Bytes, idx: nat, m: nat, end: nat, thn: Prog,
                                      els: Prog, ops: nat, st: Stack)
    requires IsRunner(run, exec, code)
    requires Clean(thn) && Clean(els) && ElseCount(thn) == 0 && ops <= MAX_SCRIPT_OPS
    requires m == idx + 1 + Len(thn) && end == m + 2 + Len(els)
    requires ByteAt(code, idx, OP_IF) && At(code, idx + 1, thn) && ByteAt(code, m, OP_ELSE)
    requires At(code, m + 1, els) && ByteAt(code, end - 1, OP_ENDIF)
    ensures run(Running(idx, ops, st)) == Resume(run,
      if st == [] then Stopped(Failed(StackUnderflow))
      else if Truthy(Top(st)) then Close(Eval(exec, thn, ops + 1, Below(st)))
      else Close(Eval(exec, els, ops + 1, Below(st))), end)
    decreases IfElse(thn, els), 0
  {
    IfElseDispatch(run, exec, code, idx, m, thn, ops, st);
    if st == [] {
    } else if Truthy(Top(st)) {
      ElseSkipped(code, m, end, els);
      BranchRuns(run, exec, code, idx + 1, m, end, thn, ops + 1, Below(st));
    } else {
      BranchRuns(run, exec, code, m + 1, end - 1, end, els, ops + 1, Below(st));
    }
  }

  lemma {:induction false} IfElseDispatch(run: Runner, exec: Semantics, code: Bytes, idx: nat, m: nat, thn: Prog,
                                          ops: nat, st: Stack)
    requires IsRunner(run, exec, code) && ElseCount(thn) == 0 && ops <= MAX_SCRIPT_OPS && m == idx + 1 + Len(thn)
    requires ByteAt(code, idx, OP_IF) && At(code, idx + 1, thn) && ByteAt(code, m, OP_ELSE)
    ensures run(Running(idx, ops, st)) ==
      if st == [] then Failed(StackUnderflow)
      else run(Running(if Truthy(Top(st)) then idx + 1 else m + 1, ops + 1, Below(st)))
  {
    IfLandsRight(code, idx + 1, thn, OP_ELSE);
    assert Skip(code, idx + 1, 1, true) == Some(m + 1);
    IfDispatch(run, exec, code, idx, m, ops, st);
  }

  lemma {:induction false} ElseSkipped(code: Bytes, m: nat, end: nat, els: Prog)
    requires At(code, m + 1, els) && end == m + 2 + Len(els) && ByteAt(code, end - 1, OP_ENDIF)
    ensures Skip(code, m + 1, 1, false) == Some(end)
  {
    ElseLandsRight(code, m + 1, els);
  }

  /** For every clean structured script, running its bytes is evaluating only the chosen branches,
      even when pushed data contains opcode bytes. */
  lemma {:induction false} ScriptMeansProgram(env: Env, p: Prog)
    requires WellFormed(p) && Clean(p)
    ensures RunScript(env, Encode(p)) == Conclude(Eval(Opcodes(env), p, 0, []))
  {
    var exec, code := Opcodes(env), Encode(p);
    FinishIsRunner(exec, code);
    MachineMeetsMeaning(cfg => Finish(exec, code, cfg), exec, p);
  }

  /** The same for any meaning of the opcodes without control flow. */
  lemma {:induction false} MachineMeetsMeaning(run: Runner, exec: Semantics, p: Prog)
    requires WellFormed(p) && Clean(p) && IsRunner(run, exec, Encode(p))
    ensures run(Running(0, 0, [])) == Conclude(Eval(exec, p, 0, []))
  {
    var code := Encode(p);
    assert code[0..|code|] == code;
    EncodeLength(p);
    EncodedAt(code, 0, p);
    BlockRuns(run, exec, code, 0, |code|, p, 0, []);
    var r := Eval(exec, p, 0, []);
    if r.Done? { RunOnce(run, exec, code, Running(|code|, r.ops, r.stack), Halted(Verdict(r.stack))); }
  }

  // ---------------------------------------------------------------- the condition is needed

  /** A THEN branch that should be skipped and contains a conditional with its own ELSE. */
  function NestedElse(): Prog
  {
    var inner := Then(Plain(OP_TRUE), Then(IfElse(End, End), Then(Plain(OP_TRUE), End)));
    Then(Plain(OP_FALSE), Then(If(inner), End))
  }

  const NESTED_ELSE: Bytes := [OP_FALSE, OP_IF, OP_TRUE, OP_IF, OP_ELSE, OP_ENDIF, OP_TRUE, OP_ENDIF]

  lemma {:induction false} NestedElseEncoding()
    ensures WellFormed(NestedElse()) && !Clean(NestedElse()) && Encode(NestedElse()) == NESTED_ELSE
  {}

  lemma {:induction false} NestedElseSkip()
    ensures Skip(NESTED_ELSE, 2, 1, true) == Some(6)
  {
    assert Skip(NESTED_ELSE, 5, 1, true) == Skip(NESTED_ELSE, 6, 0, true);
    assert Skip(NESTED_ELSE, 4, 2, true) == Skip(NESTED_ELSE, 5, 1, true);
    assert Skip(NESTED_ELSE, 3, 1, true) == Skip(NESTED_ELSE, 4, 2, true);
  }

  /** The machine enters that branch behind its inner conditional, and a script that should fail on
      an empty stack succeeds. */
  lemma {:induction false} NestedElseChangesVerdict(env: Env)
    ensures Conclude(Eval(Opcodes(env), NestedElse(), 0, [])) == Failed(EmptyStack)
    ensures WellFormed(NestedElse()) && Encode(NestedElse()) == NESTED_ELSE && !Clean(NestedElse())
    ensures RunScript(env, NESTED_ELSE) == Finished(true)
  {
    NestedElseEncoding();
    var exec := Opcodes(env);
    assert exec(OP_FALSE, []) == Continue([[]]) && exec(OP_TRUE, []) == Continue([[1]]);
    NestedElseRun(exec);
  }

  lemma {:induction false} NestedElseRun(exec: Semantics)
    requires exec(OP_FALSE, []) == Continue([[]]) && exec(OP_TRUE, []) == Continue([[1]])
    ensures Conclude(Eval(exec, NestedElse(), 0, [])) == Failed(EmptyStack)
    ensures Finish(exec, NESTED_ELSE, Running(0, 0, [])) == Finished(true)
  {
    NestedElseSkip();
    var code := NESTED_ELSE;
    FinishIsRunner(exec, code);
    var run := cfg => Finish(exec, code, cfg);
    RunOnce(run, exec, code, Running(0, 0, []), Running(1, 1, [[]]));
    RunOnce(run, exec, code, Running(1, 1, [[]]), Running(6, 2, []));
    RunOnce(run, exec, code, Running(6, 2, []), Running(7, 3, [[1]]));
    RunOnce(run, exec, code, Running(7, 3, [[1]]), Running(8, 4, [[1]]));
    RunOnce(run, exec, code, Running(8, 4, [[1]]), Halted(Finished(true)));
    var tail := NestedElse().rest;
    assert EvalInstr(exec, Plain(OP_FALSE), 0, []) == Done(1, [[]]);
    assert EvalInstr(exec, tail.first, 1, [[]]) == Done(2, []);
    assert Eval(exec, tail, 1, [[]]) == Eval(exec, End, 2, []);
  }
}
