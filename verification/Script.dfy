/** The script machine as a small-step semantics over raw bytes (border/blockchain/script.py). */
module Script {
  import opened Wrappers
  import opened Bytes

  const OP_FALSE: Byte := 0x00
  const OP_PUSH: Byte := 0x4c
  const OP_TRUE: Byte := 0x51
  const OP_IF: Byte := 0x63
  const OP_ELSE: Byte := 0x67
  const OP_ENDIF: Byte := 0x68
  const OP_RETURN: Byte := 0x6a
  const OP_DROP: Byte := 0x75
  const OP_DUP: Byte := 0x76
  const OP_EQUAL: Byte := 0x87
  const OP_EQUALVERIFY: Byte := 0x88
  const OP_NOT: Byte := 0x91
  const OP_ADD: Byte := 0x93
  const OP_SUB: Byte := 0x94
  const OP_HASH256: Byte := 0xaa
  const OP_CHECKSIG: Byte := 0xac
  const OP_CHECKMULTISIG: Byte := 0xae
  const OP_CLAIMTIMEVERIFY: Byte := 0xb1

  const MAX_STACK_DEPTH: int := 64
  const MAX_SCRIPT_OPS: int := 201

  /** Height, message, double hash, UTF-8 validity and signature check of one execution. */
  datatype Env = Env(
    blockHeight: int,
    signingMsg: Bytes,
    hash256: Bytes -> Bytes,
    decodes: Bytes -> bool,
    verify: (Bytes, Bytes, Bytes) -> bool)

  datatype Error =
    | OpLimit | StackOverflow | StackUnderflow | EqualVerifyFailed | BadSignature
    | TooFewSignatures(valid: nat, needed: nat) | Locked(until: nat) | Unspendable
    | UnknownOpcode(op: Byte) | Exception | EmptyStack

  datatype Outcome = Finished(truthy: bool) | Failed(error: Error)

  type Stack = seq<Bytes>

  datatype Effect = Continue(stack: Stack) | Abort(error: Error)

  predicate Truthy(b: Bytes)
  {
    b != [] && b != [0]
  }

  function Flag(b: bool): Bytes
  {
    if b then [1] else []
  }

  function Top(st: Stack): Bytes
    requires st != []
  {
    st[|st| - 1]
  }

  function Below(st: Stack): Stack
    requires st != []
  {
    st[..|st| - 1]
  }

  function Push(st: Stack, data: Bytes): Effect
  {
    if |st| >= MAX_STACK_DEPTH then Abort(StackOverflow) else Continue(st + [data])
  }

  // ---------------------------------------------------------------- signatures

  datatype Popped = Popped(items: seq<Bytes>, rest: Stack) | PopFailed(error: Error)

  /** Pops n entries, each of which has to decode as text. */
  function PopDecoded(env: Env, st: Stack, n: nat): (r: Popped)
    ensures r.Popped? ==> |r.items| == n && |r.rest| + n == |st|
  {
    if n == 0 then Popped([], st)
    else if st == [] then PopFailed(StackUnderflow)
    else if !env.decodes(Top(st)) then PopFailed(Exception)
    else
      match PopDecoded(env, Below(st), n - 1)
      case PopFailed(e) => PopFailed(e)
      case Popped(items, rest) => Popped([Top(st)] + items, rest)
  }

  /** The number of signatures the scan matches, each key used at most once and in order. */
  function Greedy(env: Env, sigs: seq<Bytes>, keys: seq<Bytes>): (valid: nat)
    ensures valid <= |sigs|
    decreases |keys|
  {
    if sigs == [] || keys == [] then 0
    else if env.verify(keys[0], env.signingMsg, sigs[0]) then 1 + Greedy(env, sigs[1..], keys[1..])
    else Greedy(env, sigs, keys[1..])
  }

  function Count(b: Bytes): nat
  {
    if b == [] then 0 else b[0]
  }

  function CheckMultisig(env: Env, st: Stack): (e: Effect)
    ensures e.Continue? ==> |e.stack| < |st|
  {
    if st == [] then Abort(StackUnderflow)
    else
      match PopDecoded(env, Below(st), Count(Top(st)))
      case PopFailed(e) => Abort(e)
      case Popped(keys, rest) =>
        if rest == [] then Abort(StackUnderflow)
        else
          var m := Count(Top(rest));
          match PopDecoded(env, Below(rest), m)
          case PopFailed(e) => Abort(e)
          case Popped(sigs, rest') =>
            var valid := Greedy(env, sigs, keys);
            if valid < m then Abort(TooFewSignatures(valid, m))
            else Continue(if rest' == [] then [] else Below(rest'))
  }

  function CheckSig(env: Env, st: Stack): Effect
  {
    if |st| < 2 then Abort(StackUnderflow)
    else
      var pub, sig := Top(st), Top(Below(st));
      if !env.decodes(pub) || !env.decodes(sig) then Abort(Exception)
      else if env.verify(pub, env.signingMsg, sig) then Continue(Below(Below(st)))
      else Abort(BadSignature)
  }

  // ---------------------------------------------------------------- opcodes without control flow

  predicate IsControl(op: Byte)
  {
    op == OP_PUSH || op == OP_IF || op == OP_ELSE || op == OP_ENDIF
  }

  function Arithmetic(st: Stack, sign: int): Effect
  {
    if |st| < 2 then Abort(StackUnderflow)
    else
      var result := ToLE4Signed(FromLESigned(Top(Below(st))) + sign * FromLESigned(Top(st)));
      if result.None? then Abort(Exception) else Push(Below(Below(st)), result.value)
  }

  function ThenPush(e: Effect, data: Bytes): Effect
  {
    match e
    case Abort(_) => e
    case Continue(st) => Push(st, data)
  }

  /** One opcode other than OP_PUSH and the three conditionals. */
  function Execute(env: Env, op: Byte, st: Stack): (e: Effect)
    ensures e.Continue? && |st| <= MAX_STACK_DEPTH ==> |e.stack| <= MAX_STACK_DEPTH
  {
    if op == OP_TRUE then Push(st, [1])
    else if op == OP_FALSE then Push(st, [])
    else if op == OP_DUP then (if st == [] then Abort(StackUnderflow) else Push(st, Top(st)))
    else if op == OP_DROP then (if st == [] then Abort(StackUnderflow) else Continue(Below(st)))
    else if op == OP_HASH256 then
      (if st == [] then Abort(StackUnderflow) else Push(Below(st), env.hash256(Top(st))))
    else if op == OP_EQUAL then
      (if |st| < 2 then Abort(StackUnderflow) else Push(Below(Below(st)), Flag(Top(st) == Top(Below(st)))))
    else if op == OP_EQUALVERIFY then
      (if |st| < 2 then Abort(StackUnderflow)
       else if Top(st) != Top(Below(st)) then Abort(EqualVerifyFailed)
       else Continue(Below(Below(st))))
    else if op == OP_NOT then
      (if st == [] then Abort(StackUnderflow) else Push(Below(st), Flag(!Truthy(Top(st)))))
    else if op == OP_ADD then Arithmetic(st, 1)
    else if op == OP_SUB then Arithmetic(st, -1)
    else if op == OP_CHECKSIG then ThenPush(CheckSig(env, st), [1])
    else if op == OP_CHECKMULTISIG then ThenPush(CheckMultisig(env, st), [1])
    else if op == OP_CLAIMTIMEVERIFY then
      (if st == [] then Abort(StackUnderflow)
       else if env.blockHeight < FromLE(Top(st)) then Abort(Locked(FromLE(Top(st))))
       else Continue(st))
    else if op == OP_RETURN then Abort(Unspendable)
    else if 0x52 <= op <= 0x60 then Push(st, [op - 0x50])
    else Abort(UnknownOpcode(op))
  }

  // ---------------------------------------------------------------- skipping

  /** Where one round of a skip loop goes. An ELSE closes a level in the loop of OP_IF and none in
      the loop of OP_ELSE. */
  function Hop(code: Bytes, idx: nat): nat
    requires idx < |code| && (code[idx] == OP_PUSH ==> idx + 1 < |code|)
  {
    if code[idx] == OP_PUSH then idx + 2 + code[idx + 1] else idx + 1
  }

  function Level(op: Byte, depth: nat, elseCloses: bool): nat
    requires depth > 0
  {
    if op == OP_IF then depth + 1
    else if op == OP_ENDIF || (op == OP_ELSE && elseCloses) then depth - 1
    else depth
  }

  /** A skip loop: from idx until depth conditionals are closed, or the end of the code. None is a
      read past the end. */
  function Skip(code: Bytes, idx: nat, depth: nat, elseCloses: bool): Option<nat>
    decreases |code| - idx
  {
    if idx >= |code| || depth == 0 then Some(idx)
    else if code[idx] == OP_PUSH && idx + 1 >= |code| then None
    else Skip(code, Hop(code, idx), Level(code[idx], depth, elseCloses), elseCloses)
  }

  // ---------------------------------------------------------------- the machine

  /** Between two rounds of the main loop, or done. ops counts the opcodes dispatched. */
  datatype Config = Running(idx: nat, ops: nat, stack: Stack) | Halted(outcome: Outcome)

  function Continuing(e: Effect, idx: nat, ops: nat): Config
  {
    match e
    case Abort(error) => Halted(Failed(error))
    case Continue(st) => Running(idx, ops, st)
  }

  function Verdict(st: Stack): Outcome
  {
    if st == [] then Failed(EmptyStack) else Finished(Truthy(Top(st)))
  }

  /** data[lo:hi], which Python cuts off at the end. */
  function Slice(code: Bytes, lo: nat, hi: nat): Bytes
    requires lo <= hi
  {
    if lo >= |code| then [] else if hi >= |code| then code[lo..] else code[lo..hi]
  }

  /** The meaning of the opcodes without control flow: the machine runs over any of them. */
  type Semantics = (Byte, Stack) -> Effect

  function Opcodes(env: Env): Semantics
  {
    (op: Byte, st: Stack) => Execute(env, op, st)
  }

  function SkipFrom(code: Bytes, idx: nat, ops: nat, st: Stack, elseCloses: bool): Config
  {
    var landing := Skip(code, idx, 1, elseCloses);
    if landing.None? then Halted(Failed(Exception)) else Running(landing.value, ops, st)
  }

  /** One round of the main loop. */
  function Step(exec: Semantics, code: Bytes, cfg: Config): Config
  {
    match cfg
    case Halted(_) => cfg
    case Running(idx, ops, st) =>
      if idx >= |code| then Halted(Verdict(st))
      else if ops > MAX_SCRIPT_OPS then Halted(Failed(OpLimit))
      else
        var op := code[idx];
        if op == OP_PUSH then
          if idx + 1 >= |code| then Halted(Failed(Exception))
          else
            var len := code[idx + 1];
            Continuing(Push(st, Slice(code, idx + 2, idx + 2 + len)), idx + 2 + len, ops + 1)
        else if op == OP_IF then
          if st == [] then Halted(Failed(StackUnderflow))
          else if Truthy(Top(st)) then Running(idx + 1, ops + 1, Below(st))
          else SkipFrom(code, idx + 1, ops + 1, Below(st), true)
        else if op == OP_ELSE then SkipFrom(code, idx + 1, ops + 1, st, false)
        else if op == OP_ENDIF then Running(idx + 1, ops + 1, st)
        else Continuing(exec(op, st), idx + 1, ops + 1)
  }

  function Remaining(cfg: Config): nat
  {
    if cfg.Halted? then 0 else if cfg.ops > MAX_SCRIPT_OPS then 1 else MAX_SCRIPT_OPS + 2 - cfg.ops
  }

  /** Runs to the end. */
  function Finish(exec: Semantics, code: Bytes, cfg: Config): Outcome
    decreases Remaining(cfg)
  {
    if cfg.Halted? then cfg.outcome else Finish(exec, code, Step(exec, code, cfg))
  }

  function RunScript(env: Env, code: Bytes): Outcome
  {
    Finish(Opcodes(env), code, Running(0, 0, []))
  }

  // ---------------------------------------------------------------- limits

  function After(env: Env, code: Bytes, rounds: nat): Config
  {
    if rounds == 0 then Running(0, 0, []) else Step(Opcodes(env), code, After(env, code, rounds - 1))
  }

  /** On any bytes: after n rounds exactly n opcodes were dispatched, never more than 202, and the
      stack never holds more than 64 entries. */
  lemma {:induction false} LimitsHold(env: Env, code: Bytes, rounds: nat)
    ensures
      var cfg := After(env, code, rounds);
      cfg.Running? ==> cfg.ops == rounds <= 202 && |cfg.stack| <= 64
  {
    if rounds > 0 { LimitsHold(env, code, rounds - 1); }
  }

  /** So every run stops within 203 rounds, with the outcome of RunScript. */
  lemma {:induction false} EveryRunStops(env: Env, code: Bytes)
    ensures After(env, code, 203) == Halted(RunScript(env, code))
  {
    LimitsHold(env, code, 203);
    AfterFinishes(env, code, 203);
  }

  lemma {:induction false} AfterFinishes(env: Env, code: Bytes, rounds: nat)
    ensures Finish(Opcodes(env), code, After(env, code, rounds)) == RunScript(env, code)
  {
    if rounds > 0 { AfterFinishes(env, code, rounds - 1); }
  }
}
