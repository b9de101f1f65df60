/** The standard templates accept exactly their spending conditions (ScriptBuilder). */
module ScriptTemplates {
  import opened Wrappers
  import opened Bytes
  import opened Script
  import opened ScriptPrograms

  // ---------------------------------------------------------------- builders

  /** A push of at most 255 bytes; None is the builder's ValueError. */
  function PushBytes(data: Bytes): Option<Bytes>
  {
    if |data| > 255 then None else Some([OP_PUSH, |data|] + data)
  }

  function PushAll(items: seq<Bytes>): Option<Bytes>
  {
    if items == [] then Some([])
    else
      var first, rest := PushBytes(items[0]), PushAll(items[1..]);
      if first.None? || rest.None? then None else Some(first.value + rest.value)
  }

  function P2pkhLock(hash256: Bytes -> Bytes, key: Bytes): Option<Bytes>
  {
    var push := PushBytes(hash256(key));
    if push.None? then None else Some([OP_DUP, OP_HASH256] + push.value + [OP_EQUALVERIFY, OP_CHECKSIG])
  }

  function P2pkhUnlock(sig: Bytes, key: Bytes): Option<Bytes>
  {
    PushAll([sig, key])
  }

  function MultisigLock(m: int, keys: seq<Bytes>): Option<Bytes>
  {
    if !(1 <= m <= |keys| <= 15) then None
    else
      var pushes := PushAll(keys);
      if pushes.None? then None
      else Some([(0x50 + m) as Byte] + pushes.value + [(0x50 + |keys|) as Byte, OP_CHECKMULTISIG])
  }

  function MultisigUnlock(sigs: seq<Bytes>): Option<Bytes>
  {
    var pushes := PushAll(sigs);
    if pushes.None? then None else Some([OP_FALSE] + pushes.value)
  }

  function TimelockLock(hash256: Bytes -> Bytes, height: int, key: Bytes): Option<Bytes>
  {
    if !(0 <= height < 0x1_0000_0000) then None
    else
      var push := PushBytes(hash256(key));
      if push.None? then None
      else Some([OP_PUSH, 4] + ToLE(height, 4) + [OP_CLAIMTIMEVERIFY, OP_DROP, OP_DUP, OP_HASH256]
                + push.value + [OP_EQUALVERIFY, OP_CHECKSIG])
  }

  function DataCarrier(data: Bytes): Option<Bytes>
  {
    if |data| > 80 then None else Some([OP_RETURN, OP_PUSH, |data|] + data)
  }

  lemma {:induction false} PushAllSome(items: seq<Bytes>)
    ensures PushAll(items).Some? <==> forall i :: 0 <= i < |items| ==> |items[i]| <= 255
  {
    if items != [] {
      PushAllSome(items[1..]);
      assert items == [items[0]] + items[1..];
    }
  }

  /** When the templates can be built: what is pushed has to fit a length byte, a multisig takes one to
      fifteen keys and no more signatures than keys, a height four bytes, a data carrier eighty bytes, which
      stand at its end. */
  lemma {:induction false} TemplatesExist(hash256: Bytes -> Bytes, sig: Bytes, key: Bytes, m: int, keys: seq<Bytes>,
                                          height: int, data: Bytes)
    ensures P2pkhLock(hash256, key).Some? <==> |hash256(key)| <= 255
    ensures P2pkhUnlock(sig, key).Some? <==> |sig| <= 255 && |key| <= 255
    ensures MultisigLock(m, keys).Some? <==>
      1 <= m <= |keys| <= 15 && forall i :: 0 <= i < |keys| ==> |keys[i]| <= 255
    ensures MultisigUnlock(keys).Some? <==> forall i :: 0 <= i < |keys| ==> |keys[i]| <= 255
    ensures TimelockLock(hash256, height, key).Some? <==> 0 <= height <= 0xffff_ffff && |hash256(key)| <= 255
    ensures DataCarrier(data).Some? <==> |data| <= 80
    ensures DataCarrier(data).Some? ==>
      DataCarrier(data).value[..3] == [0x6a, 0x4c, |data|] && DataCarrier(data).value[3..] == data
  {
    PushAllSome([sig, key]);
    PushAllSome(keys);
  }

  // ---------------------------------------------------------------- as programs

  function Ops(ops: Bytes, rest: Prog): Prog
  {
    if ops == [] then rest else Then(Plain(ops[0]), Ops(ops[1..], rest))
  }

  function Pushes(items: seq<Bytes>, rest: Prog): Prog
  {
    if items == [] then rest else Then(PushData(items[0]), Pushes(items[1..], rest))
  }

  lemma {:induction false} EncodeOps(ops: Bytes, rest: Prog)
    requires WellFormed(rest) && Clean(rest) && forall i :: 0 <= i < |ops| ==> !IsControl(ops[i])
    ensures WellFormed(Ops(ops, rest)) && Clean(Ops(ops, rest))
    ensures Encode(Ops(ops, rest)) == ops + Encode(rest)
  {
    if ops != [] {
      EncodeOps(ops[1..], rest);
      EncodePlain(ops[0], Ops(ops[1..], rest));
      assert ops == [ops[0]] + ops[1..];
      Associative([ops[0]], ops[1..], Encode(rest));
    }
  }

  lemma {:induction false} EncodePlain(op: Byte, rest: Prog)
    requires WellFormed(rest) && Clean(rest) && !IsControl(op)
    ensures WellFormed(Then(Plain(op), rest)) && Clean(Then(Plain(op), rest))
    ensures Encode(Then(Plain(op), rest)) == [op] + Encode(rest)
  {}

  lemma {:induction false} EncodePushes(items: seq<Bytes>, rest: Prog)
    requires WellFormed(rest) && Clean(rest) && PushAll(items).Some?
    ensures WellFormed(Pushes(items, rest)) && Clean(Pushes(items, rest))
    ensures Encode(Pushes(items, rest)) == PushAll(items).value + Encode(rest)
  {
    if items != [] {
      var tail := Pushes(items[1..], rest);
      EncodePushes(items[1..], rest);
      EncodePush(items[0], tail);
      assert Pushes(items, rest) == Then(PushData(items[0]), tail);
      Associative(PushBytes(items[0]).value, PushAll(items[1..]).value, Encode(rest));
    }
  }

  lemma {:induction false} Associative(a: Bytes, b: Bytes, c: Bytes)
    ensures a + (b + c) == a + b + c
  {}

  lemma {:induction false} EncodePush(data: Bytes, rest: Prog)
    requires WellFormed(rest) && Clean(rest) && |data| <= 255
    ensures WellFormed(Then(PushData(data), rest)) && Clean(Then(PushData(data), rest))
    ensures Encode(Then(PushData(data), rest)) == PushBytes(data).value + Encode(rest)
  {}

  // ---------------------------------------------------------------- evaluating straight-line code

  lemma {:induction false} EvalPush(exec: Semantics, data: Bytes, rest: Prog, ops: nat, st: Stack)
    requires ops <= MAX_SCRIPT_OPS && |st| < MAX_STACK_DEPTH
    ensures Eval(exec, Then(PushData(data), rest), ops, st) == Eval(exec, rest, ops + 1, st + [data])
  {}

  lemma {:induction false} EvalOp(exec: Semantics, op: Byte, rest: Prog, ops: nat, st: Stack)
    requires ops <= MAX_SCRIPT_OPS
    ensures Eval(exec, Then(Plain(op), rest), ops, st) ==
      match exec(op, st)
      case Abort(e) => Stopped(Failed(e))
      case Continue(st') => Eval(exec, rest, ops + 1, st')
  {}

  lemma {:induction false} EvalPushes(exec: Semantics, items: seq<Bytes>, rest: Prog, ops: nat, st: Stack)
    requires ops + |items| <= MAX_SCRIPT_OPS + 1 && |st| + |items| <= MAX_STACK_DEPTH
    ensures Eval(exec, Pushes(items, rest), ops, st) == Eval(exec, rest, ops + |items|, st + items)
    decreases |items|
  {
    if items == [] {
      assert st + items == st;
    } else {
      EvalPush(exec, items[0], Pushes(items[1..], rest), ops, st);
      EvalPushes(exec, items[1..], rest, ops + 1, st + [items[0]]);
      assert st + [items[0]] + items[1..] == st + items;
    }
  }

  // ---------------------------------------------------------------- pay to public key hash

  /** The tail shared by P2PKH and timelock: the key on top has to hash to h and sign. */
  lemma {:induction false} EvalKeyCheck(env: Env, h: Bytes, ops: nat, sig: Bytes, key: Bytes)
    requires ops <= 10 && env.decodes(sig) && env.decodes(key)
    ensures
      var p := Ops([OP_DUP, OP_HASH256], Then(PushData(h), Ops([OP_EQUALVERIFY, OP_CHECKSIG], End)));
      Conclude(Eval(Opcodes(env), p, ops, [sig, key])) == KeyOutcome(env, h, sig, key)
  {
    var exec := Opcodes(env);
    var tail := Ops([OP_EQUALVERIFY, OP_CHECKSIG], End);
    var afterDup := Then(Plain(OP_HASH256), Then(PushData(h), tail));
    assert [OP_DUP, OP_HASH256][1..] == [OP_HASH256] && [OP_HASH256][1..] == [];
    assert Ops([OP_HASH256], Then(PushData(h), tail)) == afterDup;
    var st := [sig, key];
    EvalOp(exec, OP_DUP, afterDup, ops, st);
    assert exec(OP_DUP, st) == Continue([sig, key, key]);
    EvalOp(exec, OP_HASH256, Then(PushData(h), tail), ops + 1, [sig, key, key]);
    assert Below([sig, key, key]) == st;
    assert exec(OP_HASH256, [sig, key, key]) == Continue([sig, key, env.hash256(key)]);
    EvalPush(exec, h, tail, ops + 2, [sig, key, env.hash256(key)]);
    assert [sig, key, env.hash256(key)] + [h] == [sig, key, env.hash256(key), h];
    EvalVerifyAndSign(env, h, ops + 3, sig, key);
  }

  lemma {:induction false} EvalVerifyAndSign(env: Env, h: Bytes, ops: nat, sig: Bytes, key: Bytes)
    requires ops <= 13 && env.decodes(sig) && env.decodes(key)
    ensures Conclude(Eval(Opcodes(env), Ops([OP_EQUALVERIFY, OP_CHECKSIG], End), ops, [sig, key, env.hash256(key), h]))
         == KeyOutcome(env, h, sig, key)
  {
    var exec := Opcodes(env);
    var last := Then(Plain(OP_CHECKSIG), End);
    assert [OP_CHECKSIG][1..] == [] && Ops([OP_CHECKSIG], End) == last;
    assert [OP_EQUALVERIFY, OP_CHECKSIG][1..] == [OP_CHECKSIG];
    assert Ops([OP_EQUALVERIFY, OP_CHECKSIG], End) == Then(Plain(OP_EQUALVERIFY), last);
    var st, full := [sig, key], [sig, key, env.hash256(key), h];
    EvalOp(exec, OP_EQUALVERIFY, last, ops, full);
    assert Below(full) == [sig, key, env.hash256(key)] && Below(Below(full)) == st;
    if env.hash256(key) == h {
      EvalOp(exec, OP_CHECKSIG, End, ops + 1, st);
      assert Below(st) == [sig] && Below(Below(st)) == [];
    }
  }

  /** The outcome of presenting a key and a signature where a key hash was asked for. */
  function KeyOutcome(env: Env, h: Bytes, sig: Bytes, key: Bytes): Outcome
  {
    if env.hash256(key) != h then Failed(EqualVerifyFailed)
    else if !env.verify(key, env.signingMsg, sig) then Failed(BadSignature)
    else Finished(true)
  }

  lemma {:induction false} KeyCheckEncoding(h: Bytes)
    requires |h| <= 255
    ensures
      var p := Ops([OP_DUP, OP_HASH256], Then(PushData(h), Ops([OP_EQUALVERIFY, OP_CHECKSIG], End)));
      && WellFormed(p) && Clean(p)
      && Encode(p) == [OP_DUP, OP_HASH256] + PushBytes(h).value + [OP_EQUALVERIFY, OP_CHECKSIG]
  {
    var tail := Ops([OP_EQUALVERIFY, OP_CHECKSIG], End);
    EncodeOps([OP_EQUALVERIFY, OP_CHECKSIG], End);
    assert Encode(tail) == [OP_EQUALVERIFY, OP_CHECKSIG];
    EncodePush(h, tail);
    EncodeOps([OP_DUP, OP_HASH256], Then(PushData(h), tail));
    Associative([OP_DUP, OP_HASH256], PushBytes(h).value, Encode(tail));
  }

  /** P2PKH succeeds exactly when the key hashes to the locked hash and its signature verifies. */
  lemma {:induction false} P2pkhAcceptsExactly(env: Env, owner: Bytes, sig: Bytes, key: Bytes)
    requires env.decodes(sig) && env.decodes(key)
    requires P2pkhLock(env.hash256, owner).Some? && P2pkhUnlock(sig, key).Some?
    ensures
      var outcome := RunScript(env, P2pkhUnlock(sig, key).value + P2pkhLock(env.hash256, owner).value);
      && outcome == KeyOutcome(env, env.hash256(owner), sig, key)
      && (outcome == Finished(true) <==>
            env.hash256(key) == env.hash256(owner) && env.verify(key, env.signingMsg, sig))
  {
    var h := env.hash256(owner);
    var lock := Ops([OP_DUP, OP_HASH256], Then(PushData(h), Ops([OP_EQUALVERIFY, OP_CHECKSIG], End)));
    KeyCheckEncoding(h);
    UnlockThenLock(env, sig, key, lock);
    EvalKeyCheck(env, h, 2, sig, key);
  }

  /** Unlocking with a signature and a key runs the lock on these two. */
  lemma {:induction false} UnlockThenLock(env: Env, sig: Bytes, key: Bytes, lock: Prog)
    requires P2pkhUnlock(sig, key).Some? && WellFormed(lock) && Clean(lock)
    ensures RunScript(env, P2pkhUnlock(sig, key).value + Encode(lock))
         == Conclude(Eval(Opcodes(env), lock, 2, [sig, key]))
  {
    EncodePushes([sig, key], lock);
    ScriptMeansProgram(env, Pushes([sig, key], lock));
    EvalPushes(Opcodes(env), [sig, key], lock, 0, []);
    assert [] + [sig, key] == [sig, key];
  }

  // ---------------------------------------------------------------- timelock

  /** A timelock adds one condition: the chain has reached the locked height. */
  lemma {:induction false} TimelockAcceptsExactly(env: Env, height: int, owner: Bytes, sig: Bytes, key: Bytes)
    requires env.decodes(sig) && env.decodes(key)
    requires TimelockLock(env.hash256, height, owner).Some? && P2pkhUnlock(sig, key).Some?
    ensures
      var outcome := RunScript(env, P2pkhUnlock(sig, key).value + TimelockLock(env.hash256, height, owner).value);
      && (env.blockHeight < height ==> outcome == Failed(Locked(height)))
      && (outcome == Finished(true) <==>
            env.blockHeight >= height
            && env.hash256(key) == env.hash256(owner) && env.verify(key, env.signingMsg, sig))
  {
    var h := env.hash256(owner);
    var keyCheck := Ops([OP_DUP, OP_HASH256], Then(PushData(h), Ops([OP_EQUALVERIFY, OP_CHECKSIG], End)));
    var lock := Then(PushData(ToLE(height, 4)), Ops([OP_CLAIMTIMEVERIFY, OP_DROP], keyCheck));
    KeyCheckEncoding(h);
    TimelockEncoding(ToLE(height, 4), keyCheck);
    assert Encode(lock) == TimelockLock(env.hash256, height, owner).value;
    UnlockThenLock(env, sig, key, lock);
    EvalHeightCheck(env, height, keyCheck, sig, key);
    if env.blockHeight >= height { EvalKeyCheck(env, h, 5, sig, key); }
  }

  lemma {:induction false} TimelockEncoding(lockBytes: Bytes, keyCheck: Prog)
    requires |lockBytes| == 4 && WellFormed(keyCheck) && Clean(keyCheck)
    ensures
      var lock := Then(PushData(lockBytes), Ops([OP_CLAIMTIMEVERIFY, OP_DROP], keyCheck));
      && WellFormed(lock) && Clean(lock)
      && Encode(lock) == [OP_PUSH, 4] + lockBytes + ([OP_CLAIMTIMEVERIFY, OP_DROP] + Encode(keyCheck))
  {
    EncodeOps([OP_CLAIMTIMEVERIFY, OP_DROP], keyCheck);
    EncodePush(lockBytes, Ops([OP_CLAIMTIMEVERIFY, OP_DROP], keyCheck));
  }

  lemma {:induction false} EvalHeightCheck(env: Env, height: int, rest: Prog, sig: Bytes, key: Bytes)
    requires 0 <= height < 0x1_0000_0000
    ensures
      var lock := Then(PushData(ToLE(height, 4)), Ops([OP_CLAIMTIMEVERIFY, OP_DROP], rest));
      Eval(Opcodes(env), lock, 2, [sig, key]) ==
        if env.blockHeight < height then Stopped(Failed(Locked(height)))
        else Eval(Opcodes(env), rest, 5, [sig, key])
  {
    var exec := Opcodes(env);
    var b := ToLE(height, 4);
    assert Pow256(2) == 65536 && Pow256(4) == 0x1_0000_0000;
    LERoundTrip(height, 4);
    var drop := Then(Plain(OP_DROP), rest);
    assert [OP_CLAIMTIMEVERIFY, OP_DROP][1..] == [OP_DROP] && [OP_DROP][1..] == [];
    assert Ops([OP_DROP], rest) == drop;
    assert Ops([OP_CLAIMTIMEVERIFY, OP_DROP], rest) == Then(Plain(OP_CLAIMTIMEVERIFY), drop);
    EvalPush(exec, b, Then(Plain(OP_CLAIMTIMEVERIFY), drop), 2, [sig, key]);
    var st := [sig, key, b];
    assert [sig, key] + [b] == st;
    EvalOp(exec, OP_CLAIMTIMEVERIFY, drop, 3, st);
    if env.blockHeight >= height {
      EvalOp(exec, OP_DROP, rest, 4, st);
      assert Below(st) == [sig, key];
    }
  }

  /** A data carrier can never be spent. */
  lemma {:induction false} DataCarrierUnspendable(env: Env, data: Bytes)
    requires DataCarrier(data).Some?
    ensures RunScript(env, DataCarrier(data).value) == Failed(Unspendable)
  {}
}
