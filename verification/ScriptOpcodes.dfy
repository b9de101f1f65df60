/** What each opcode leaves on the stack, read off rounds of the machine over any code. */
module ScriptOpcodes {
  import opened Wrappers
  import opened Bytes
  import opened Script
  import opened ScriptPrograms
  import opened Multisig

  /** n rounds of the machine. */
  function Rounds(env: Env, code: Bytes, cfg: Config, n: nat): Config
    decreases n
  {
    if n == 0 then cfg else Rounds(env, code, Step(Opcodes(env), code, cfg), n - 1)
  }

  /** The opcode at an index turns one stack into another, from any op count within the limit. */
  ghost predicate Leaves(env: Env, op: Byte, st: Stack, st': Stack)
  {
    forall code: Bytes, idx: nat, ops: nat :: ByteAt(code, idx, op) && ops <= MAX_SCRIPT_OPS ==>
      Step(Opcodes(env), code, Running(idx, ops, st)) == Running(idx + 1, ops + 1, st')
  }

  /** It ends the run with an error. */
  ghost predicate Raises(env: Env, op: Byte, st: Stack, error: Error)
  {
    forall code: Bytes, idx: nat, ops: nat :: ByteAt(code, idx, op) && ops <= MAX_SCRIPT_OPS ==>
      Step(Opcodes(env), code, Running(idx, ops, st)) == Halted(Failed(error))
  }

  // ---------------------------------------------------------------- constants and stack

  /** OP_FALSE pushes the empty string, OP_TRUE and OP_2 to OP_16 push one byte with their number. */
  lemma {:induction false} NumbersPush(env: Env, st: Stack, n: nat)
    requires n <= 16
    ensures
      var op: Byte := if n == 0 then 0 else 0x50 + n;
      && (|st| < 64 ==> Leaves(env, op, st, st + [if n == 0 then [] else [n]]))
      && (|st| >= 64 ==> Raises(env, op, st, StackOverflow))
  {}

  /** OP_DROP removes the top entry, OP_DUP repeats it, OP_HASH256 replaces it by its double hash. */
  lemma {:induction false} TopEntry(env: Env, st: Stack, x: Bytes)
    ensures Leaves(env, 0x75, st + [x], st)
    ensures |st| < 63 ==> Leaves(env, 0x76, st + [x], st + [x, x])
    ensures |st| == 63 ==> Raises(env, 0x76, st + [x], StackOverflow)
    ensures |st| < 64 ==> Leaves(env, 0xaa, st + [x], st + [env.hash256(x)])
  {
    assert (st + [x])[..|st|] == st && st + [x] + [x] == st + [x, x];
  }

  /** Two entries on top of a stack. */
  lemma {:induction false} TwoEntries(st: Stack, x: Bytes, y: Bytes)
    ensures Top(st + [x, y]) == y && Below(st + [x, y]) == st + [x]
    ensures Top(Below(st + [x, y])) == x && Below(Below(st + [x, y])) == st
  {
    assert (st + [x, y])[..|st| + 1] == st + [x] && (st + [x])[..|st|] == st;
  }

  // ---------------------------------------------------------------- comparing

  /** OP_EQUAL leaves one byte 1 for two equal entries and the empty string for different ones;
      OP_EQUALVERIFY leaves nothing for equal entries and ends the run for different ones. */
  lemma {:induction false} EqualCompares(env: Env, st: Stack, x: Bytes, y: Bytes)
    requires |st| < 64
    ensures Leaves(env, 0x87, st + [x, y], st + [if x == y then [1] else []])
    ensures x == y ==> Leaves(env, 0x88, st + [x, y], st)
    ensures x != y ==> Raises(env, 0x88, st + [x, y], EqualVerifyFailed)
  {
    TwoEntries(st, x, y);
  }

  /** OP_NOT leaves the opposite truth value; false are the empty string and the single zero byte. */
  lemma {:induction false} NotNegates(env: Env, st: Stack, x: Bytes)
    requires |st| < 64
    ensures Leaves(env, 0x91, st + [x], st + [if x == [] || x == [0] then [1] else []])
    ensures Truthy([1]) && !Truthy([]) && (Truthy(x) <==> x != [] && x != [0])
  {
    assert (st + [x])[..|st|] == st;
  }

  // ---------------------------------------------------------------- numbers

  /** A byte string as a signed number: congruent to the unsigned one, within half the range. */
  lemma {:induction false} SignedReading(b: Bytes)
    ensures b != [] ==> 0 <= 2 * FromLESigned(b) + Pow256(|b|) < 2 * Pow256(|b|)
    ensures FromLESigned(b) == FromLE(b) || FromLESigned(b) == FromLE(b) - Pow256(|b|)
    ensures b == [] ==> FromLESigned(b) == 0
  {
    if b != [] { HighByte(b); }
  }

  /** The last byte decides in which half of the range the number lies. */
  lemma {:induction false} HighByte(b: Bytes)
    requires b != []
    ensures b[|b| - 1] >= 128 <==> 2 * FromLE(b) >= Pow256(|b|)
    ensures FromLE(b) < Pow256(|b|)
  {
    FromLEBound(b);
    if |b| > 1 {
      HighByte(b[1..]);
    } else {
      assert b[1..] == [] && Pow256(1) == 256 * Pow256(0);
    }
  }

  /** The sum or difference of the two numbers as four bytes, the upper operand below, or an exception
      outside 32 bits. */
  ghost predicate Calculates(env: Env, op: Byte, st: Stack, a: Bytes, b: Bytes, value: int)
  {
    if -0x8000_0000 <= value < 0x8000_0000
    then exists r: Bytes :: |r| == 4 && FromLESigned(r) == value && Leaves(env, op, st + [a, b], st + [r])
    else Raises(env, op, st + [a, b], Exception)
  }

  /** OP_ADD computes a + b, and OP_SUB a - b with b on top. */
  lemma {:induction false} ArithmeticMeans(env: Env, st: Stack, a: Bytes, b: Bytes)
    requires |st| < 64
    ensures Calculates(env, 0x93, st, a, b, FromLESigned(a) + FromLESigned(b))
    ensures Calculates(env, 0x94, st, a, b, FromLESigned(a) - FromLESigned(b))
  {
    AddMeans(env, st, a, b, FromLESigned(a) + FromLESigned(b));
    SubMeans(env, st, a, b, FromLESigned(a) - FromLESigned(b));
  }

  lemma {:induction false} AddMeans(env: Env, st: Stack, a: Bytes, b: Bytes, value: int)
    requires |st| < 64 && value == FromLESigned(a) + FromLESigned(b)
    ensures Calculates(env, 0x93, st, a, b, value)
  {
    TwoEntries(st, a, b);
    if -0x8000_0000 <= value < 0x8000_0000 {
      SignedRoundTrip(value);
      assert Leaves(env, 0x93, st + [a, b], st + [ToLE4Signed(value).value]);
    }
  }

  lemma {:induction false} SubMeans(env: Env, st: Stack, a: Bytes, b: Bytes, value: int)
    requires |st| < 64 && value == FromLESigned(a) - FromLESigned(b)
    ensures Calculates(env, 0x94, st, a, b, value)
  {
    TwoEntries(st, a, b);
    if -0x8000_0000 <= value < 0x8000_0000 {
      SignedRoundTrip(value);
      assert Leaves(env, 0x94, st + [a, b], st + [ToLE4Signed(value).value]);
    }
  }

  // ---------------------------------------------------------------- signatures, heights, ends

  /** OP_CHECKSIG takes the key from the top and the signature below it; both have to be text, and the
      signature has to verify over the message. */
  lemma {:induction false} CheckSigMeans(env: Env, st: Stack, sig: Bytes, key: Bytes)
    requires |st| < 64
    ensures
      if !env.decodes(key) || !env.decodes(sig) then Raises(env, 0xac, st + [sig, key], Exception)
      else if env.verify(key, env.signingMsg, sig) then Leaves(env, 0xac, st + [sig, key], st + [[1]])
      else Raises(env, 0xac, st + [sig, key], BadSignature)
  {
    TwoEntries(st, sig, key);
  }

  /** The opcodes that are no numbers 1 to 16. */
  const OTHER_OPCODES: set<Byte> :=
    {0x00, 0x4c, 0x63, 0x67, 0x68, 0x6a, 0x75, 0x76, 0x87, 0x88, 0x91, 0x93, 0x94, 0xaa, 0xac, 0xae, 0xb1}

  /** OP_CLAIMTIMEVERIFY passes when the chain has the height on top, which stays there; OP_RETURN always
      ends the run, and so does every byte that is no opcode. */
  lemma {:induction false} HeightsAndEnds(env: Env, st: Stack, x: Bytes, op: Byte)
    ensures FromLE(x) <= env.blockHeight ==> Leaves(env, 0xb1, st + [x], st + [x])
    ensures FromLE(x) > env.blockHeight ==> Raises(env, 0xb1, st + [x], Locked(FromLE(x)))
    ensures Raises(env, 0x6a, st, Unspendable)
    ensures !(0x51 <= op <= 0x60) && op !in OTHER_OPCODES ==> Raises(env, op, st, UnknownOpcode(op))
  {}

  /** The opcodes that take entries raise an underflow when these are missing. */
  lemma {:induction false} Underflows(env: Env, st: Stack, op: Byte)
    ensures st == [] && op in {0x75, 0x76, 0x91, 0xaa, 0xae, 0xb1} ==> Raises(env, op, st, StackUnderflow)
    ensures |st| < 2 && op in {0x87, 0x88, 0x93, 0x94, 0xac} ==> Raises(env, op, st, StackUnderflow)
  {}

  // ---------------------------------------------------------------- many signatures

  /** The number an entry stands for in front of keys or signatures: its first byte. */
  predicate Says(b: Bytes, n: nat)
  {
    if b == [] then n == 0 else b[0] == n
  }

  ghost predicate AllText(env: Env, items: seq<Bytes>)
  {
    forall i :: 0 <= i < |items| ==> env.decodes(items[i])
  }

  lemma {:induction false} PopFails(env: Env, st: Stack, items: seq<Bytes>)
    requires !AllText(env, items)
    ensures PopDecoded(env, st + items, |items|) == PopFailed(Exception)
    decreases |items|
  {
    var init := items[..|items| - 1];
    assert Below(st + items) == st + init && Top(st + items) == items[|items| - 1];
    if env.decodes(items[|items| - 1]) {
      assert !AllText(env, init);
      PopFails(env, st, init);
    }
  }

  /** OP_CHECKMULTISIG over any stack that holds signatures, their number, keys and their number: it takes
      them and one entry below, if there is one, and leaves 1, exactly when all are text and the signatures
      match keys in order. */
  lemma {:induction false} MultisigMeans(env: Env, st: Stack, sigs: seq<Bytes>, m: Bytes, keys: seq<Bytes>, n: Bytes)
    requires |st| <= 64 && Says(m, |sigs|) && Says(n, |keys|)
    ensures
      var full := st + sigs + [m] + keys + [n];
      if !AllText(env, keys) || !AllText(env, sigs) then Raises(env, 0xae, full, Exception)
      else if Matchable(env, sigs, keys) then Leaves(env, 0xae, full, (if st == [] then [] else st[..|st| - 1]) + [[1]])
      else exists valid: nat :: valid < |sigs| && Raises(env, 0xae, full, TooFewSignatures(valid, |sigs|))
  {
    var base := st + sigs + [m];
    var full := base + keys + [n];
    assert Top(full) == n && Below(full) == base + keys && Top(base) == m && Below(base) == st + sigs;
    if AllText(env, keys) { PopReverses(env, base, keys); } else { PopFails(env, base, keys); }
    if AllText(env, sigs) { PopReverses(env, st, sigs); } else { PopFails(env, st, sigs); }
    GreedyComplete(env, Reversed(sigs), Reversed(keys));
    MatchableReversed(env, sigs, keys);
    MultisigEffect(env, st, sigs, keys, full, Greedy(env, Reversed(sigs), Reversed(keys)));
  }

  lemma {:induction false} MultisigEffect(env: Env, st: Stack, sigs: seq<Bytes>, keys: seq<Bytes>, full: Stack,
                                          valid: nat)
    requires valid <= |sigs| && |st| <= 64
    requires CheckMultisig(env, full) ==
      if !AllText(env, keys) || !AllText(env, sigs) then Abort(Exception)
      else if valid < |sigs| then Abort(TooFewSignatures(valid, |sigs|))
      else Continue(if st == [] then [] else st[..|st| - 1])
    ensures
      if !AllText(env, keys) || !AllText(env, sigs) then Raises(env, 0xae, full, Exception)
      else if valid < |sigs| then Raises(env, 0xae, full, TooFewSignatures(valid, |sigs|))
      else Leaves(env, 0xae, full, (if st == [] then [] else st[..|st| - 1]) + [[1]])
  {}

  // ---------------------------------------------------------------- conditionals

  /** OP_IF takes the top entry; a true one goes on behind the opcode, a false one skips, and without an
      entry the run ends. OP_ENDIF does nothing. */
  lemma {:induction false} IfTakesTop(env: Env, code: Bytes, idx: nat, ops: nat, st: Stack, x: Bytes)
    requires ByteAt(code, idx, 0x63) && ops <= MAX_SCRIPT_OPS
    ensures Step(Opcodes(env), code, Running(idx, ops, [])) == Halted(Failed(StackUnderflow))
    ensures x != [] && x != [0] ==>
      Step(Opcodes(env), code, Running(idx, ops, st + [x])) == Running(idx + 1, ops + 1, st)
    ensures x == [] || x == [0] ==>
      Step(Opcodes(env), code, Running(idx, ops, st + [x])) == SkipFrom(code, idx + 1, ops + 1, st, true)
    ensures Leaves(env, 0x68, st, st)
  {
    assert (st + [x])[..|st|] == st;
  }

  // ---------------------------------------------------------------- whole scripts

  /** Two pushes and an opcode standing in any code: what it leaves for its operands is what three rounds
      leave. */
  lemma {:induction false} PushPushThen(env: Env, code: Bytes, idx: nat, mid: nat, end: nat, ops: nat, st: Stack,
                                        x: Bytes, y: Bytes, op: Byte, r: Stack)
    requires |st| <= 62 && ops + 2 <= MAX_SCRIPT_OPS && mid == idx + 2 + |x| && end == mid + 2 + |y|
    requires InstrAt(code, idx, PushData(x)) && InstrAt(code, mid, PushData(y))
    requires ByteAt(code, end, op) && Leaves(env, op, st + [x, y], r)
    ensures Rounds(env, code, Running(idx, ops, st), 3) == Running(end + 1, ops + 3, r)
  {
    var exec := Opcodes(env);
    StepPush(exec, code, idx, mid, x, ops, st);
    StepPush(exec, code, mid, end, y, ops + 1, st + [x]);
    assert st + [x] + [y] == st + [x, y];
    ThreeRounds(env, code, Running(idx, ops, st), Running(mid, ops + 1, st + [x]), Running(end, ops + 2, st + [x, y]),
                Running(end + 1, ops + 3, r));
  }

  lemma {:induction false} ThreeRounds(env: Env, code: Bytes, a: Config, b: Config, c: Config, d: Config)
    requires Step(Opcodes(env), code, a) == b && Step(Opcodes(env), code, b) == c && Step(Opcodes(env), code, c) == d
    ensures Rounds(env, code, a, 3) == d
  {
    assert Rounds(env, code, c, 1) == Rounds(env, code, d, 0);
    assert Rounds(env, code, b, 2) == Rounds(env, code, c, 1);
  }

  /** The script PUSH x, PUSH y, OP_EQUAL succeeds if and only if x and y are the same bytes. */
  lemma {:induction false} EqualScript(env: Env, x: Bytes, y: Bytes)
    requires |x| <= 255 && |y| <= 255
    ensures RunScript(env, [0x4c, |x|] + x + [0x4c, |y|] + y + [0x87]) == Finished(x == y)
  {
    EncodesTo(x, y);
    ScriptMeansProgram(env, Then(PushData(x), Then(PushData(y), Then(Plain(OP_EQUAL), End))));
    EvalEqual(env, x, y);
  }

  lemma {:induction false} EvalEqual(env: Env, x: Bytes, y: Bytes)
    ensures Eval(Opcodes(env), Then(PushData(x), Then(PushData(y), Then(Plain(OP_EQUAL), End))), 0, [])
         == Done(3, [if x == y then [1] else []])
  {
    var exec, last := Opcodes(env), Then(Plain(OP_EQUAL), End);
    TwoEntries([], x, y);
    assert [] + [x, y] == [x, y] && [x] + [y] == [x, y] && [] + [x] == [x];
    assert EvalInstr(exec, Plain(OP_EQUAL), 2, [x, y]) == Done(3, [if x == y then [1] else []]);
    assert Eval(exec, last, 2, [x, y]) == Done(3, [if x == y then [1] else []]);
    assert Eval(exec, Then(PushData(y), last), 1, [x]) == Eval(exec, last, 2, [x, y]);
  }

  lemma {:induction false} EncodesTo(x: Bytes, y: Bytes)
    requires |x| <= 255 && |y| <= 255
    ensures
      var p := Then(PushData(x), Then(PushData(y), Then(Plain(OP_EQUAL), End)));
      WellFormed(p) && Clean(p) && Encode(p) == [0x4c, |x|] + x + [0x4c, |y|] + y + [0x87]
  {
    assert Encode(Then(Plain(OP_EQUAL), End)) == [0x87] + [];
    assert Encode(Then(PushData(y), Then(Plain(OP_EQUAL), End))) == [0x4c, |y|] + y + [0x87];
  }
}
