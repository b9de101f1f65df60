/** The greedy signature scan is complete, and the multisig template accepts exactly the
    order-preserving matchings. */
module Multisig {
  import opened Wrappers
  import opened Bytes
  import opened Script
  import opened ScriptPrograms
  import opened ScriptTemplates

  /** f picks for every signature a key that verifies it, in strictly increasing order. */
  ghost predicate Matching(env: Env, sigs: seq<Bytes>, keys: seq<Bytes>, f: seq<nat>)
  {
    && |f| == |sigs|
    && (forall i :: 0 <= i < |f| ==> f[i] < |keys| && env.verify(keys[f[i]], env.signingMsg, sigs[i]))
    && (forall i, j :: 0 <= i < j < |f| ==> f[i] < f[j])
  }

  ghost predicate Matchable(env: Env, sigs: seq<Bytes>, keys: seq<Bytes>)
  {
    exists f :: Matching(env, sigs, keys, f)
  }

  // ---------------------------------------------------------------- completeness of the scan

  lemma {:induction false} ShiftDown(env: Env, sigs: seq<Bytes>, keys: seq<Bytes>, f: seq<nat>) returns (g: seq<nat>)
    requires Matching(env, sigs, keys, f) && keys != [] && (f != [] ==> f[0] > 0)
    ensures Matching(env, sigs, keys[1..], g)
  {
    forall i | 0 <= i < |f| ensures f[i] > 0 {
      if i > 0 { assert f[0] < f[i]; }
    }
    g := seq(|f|, i requires 0 <= i < |f| => f[i] - 1);
  }

  lemma {:induction false} DropFirst(env: Env, sigs: seq<Bytes>, keys: seq<Bytes>, f: seq<nat>) returns (g: seq<nat>)
    requires Matching(env, sigs, keys, f) && sigs != [] && keys != []
    ensures Matching(env, sigs[1..], keys[1..], g)
  {
    var rest := f[1..];
    assert Matching(env, sigs[1..], keys, rest);
    if rest != [] { assert rest[0] == f[1] > f[0] >= 0; }
    g := ShiftDown(env, sigs[1..], keys, rest);
  }

  /** If any order-preserving matching exists, the scan finds one. */
  lemma {:induction false} GreedyFindsMatching(env: Env, sigs: seq<Bytes>, keys: seq<Bytes>, f: seq<nat>)
    requires Matching(env, sigs, keys, f)
    ensures Greedy(env, sigs, keys) == |sigs|
    decreases |keys|
  {
    if sigs != [] {
      assert f[0] < |keys|;
      if env.verify(keys[0], env.signingMsg, sigs[0]) {
        var g := DropFirst(env, sigs, keys, f);
        GreedyFindsMatching(env, sigs[1..], keys[1..], g);
      } else {
        var g := ShiftDown(env, sigs, keys, f);
        GreedyFindsMatching(env, sigs, keys[1..], g);
      }
    }
  }

  lemma {:induction false} GreedyIsMatching(env: Env, sigs: seq<Bytes>, keys: seq<Bytes>) returns (f: seq<nat>)
    requires Greedy(env, sigs, keys) == |sigs|
    ensures Matching(env, sigs, keys, f)
    decreases |keys|
  {
    if sigs == [] {
      f := [];
    } else {
      var hit := env.verify(keys[0], env.signingMsg, sigs[0]);
      var g := GreedyIsMatching(env, if hit then sigs[1..] else sigs, keys[1..]);
      var up: seq<nat> := seq(|g|, i requires 0 <= i < |g| => g[i] + 1);
      f := if hit then [0] + up else up;
      if hit { FirstMatched(env, sigs, keys, g, f); } else { FirstMissed(env, sigs, keys, g, f); }
    }
  }

  lemma {:induction false} FirstMatched(env: Env, sigs: seq<Bytes>, keys: seq<Bytes>, g: seq<nat>, f: seq<nat>)
    requires sigs != [] && keys != [] && env.verify(keys[0], env.signingMsg, sigs[0])
    requires Matching(env, sigs[1..], keys[1..], g)
    requires |f| == |g| + 1 && f[0] == 0 && forall i :: 0 <= i < |g| ==> f[i + 1] == g[i] + 1
    ensures Matching(env, sigs, keys, f)
  {
    forall i | 0 <= i < |f| ensures f[i] < |keys| && env.verify(keys[f[i]], env.signingMsg, sigs[i]) {
      if i > 0 {
        assert f[i - 1 + 1] == g[i - 1] + 1;
        assert sigs[1..][i - 1] == sigs[i] && keys[1..][g[i - 1]] == keys[f[i]];
      }
    }
    forall i, j | 0 <= i < j < |f| ensures f[i] < f[j] {
      assert f[j - 1 + 1] == g[j - 1] + 1;
      if i > 0 { assert f[i - 1 + 1] == g[i - 1] + 1; }
    }
  }

  lemma {:induction false} FirstMissed(env: Env, sigs: seq<Bytes>, keys: seq<Bytes>, g: seq<nat>, f: seq<nat>)
    requires keys != [] && Matching(env, sigs, keys[1..], g)
    requires |f| == |g| && forall i :: 0 <= i < |g| ==> f[i] == g[i] + 1
    ensures Matching(env, sigs, keys, f)
  {
    forall i | 0 <= i < |f| ensures f[i] < |keys| && env.verify(keys[f[i]], env.signingMsg, sigs[i]) {
      assert keys[1..][g[i]] == keys[f[i]];
    }
  }

  /** The greedy scan matches every signature exactly when some order-preserving matching exists. */
  lemma {:induction false} GreedyComplete(env: Env, sigs: seq<Bytes>, keys: seq<Bytes>)
    ensures Greedy(env, sigs, keys) == |sigs| <==> Matchable(env, sigs, keys)
  {
    if Greedy(env, sigs, keys) == |sigs| {
      var f := GreedyIsMatching(env, sigs, keys);
    }
    if Matchable(env, sigs, keys) {
      var f :| Matching(env, sigs, keys, f);
      GreedyFindsMatching(env, sigs, keys, f);
    }
  }

  // ---------------------------------------------------------------- popping reverses

  function Reversed(xs: seq<Bytes>): (r: seq<Bytes>)
    ensures |r| == |xs|
    ensures forall i :: 0 <= i < |xs| ==> r[i] == xs[|xs| - 1 - i]
  {
    if xs == [] then [] else [xs[|xs| - 1]] + Reversed(xs[..|xs| - 1])
  }

  lemma {:induction false} PopReverses(env: Env, st: Stack, items: seq<Bytes>)
    requires forall i :: 0 <= i < |items| ==> env.decodes(items[i])
    ensures PopDecoded(env, st + items, |items|) == Popped(Reversed(items), st)
    decreases |items|
  {
    if items == [] {
      assert st + items == st;
    } else {
      var init := items[..|items| - 1];
      assert Below(st + items) == st + init;
      PopReverses(env, st, init);
    }
  }

  lemma {:induction false} ReverseMatching(env: Env, sigs: seq<Bytes>, keys: seq<Bytes>, f: seq<nat>)
    returns (g: seq<nat>)
    requires Matching(env, sigs, keys, f)
    ensures Matching(env, Reversed(sigs), Reversed(keys), g)
  {
    var m, n := |sigs|, |keys|;
    g := seq(m, i requires 0 <= i < m => n - 1 - f[m - 1 - i]);
    forall i | 0 <= i < m
      ensures g[i] < n && env.verify(Reversed(keys)[g[i]], env.signingMsg, Reversed(sigs)[i])
    {
      assert Reversed(keys)[g[i]] == keys[f[m - 1 - i]];
    }
    forall i, j | 0 <= i < j < m ensures g[i] < g[j] {
      assert f[m - 1 - j] < f[m - 1 - i];
    }
  }

  lemma {:induction false} ReverseTwice(xs: seq<Bytes>)
    ensures Reversed(Reversed(xs)) == xs
  {}

  /** A matching of the lists is a matching of the reversed lists, and back. */
  lemma {:induction false} MatchableReversed(env: Env, sigs: seq<Bytes>, keys: seq<Bytes>)
    ensures Matchable(env, Reversed(sigs), Reversed(keys)) <==> Matchable(env, sigs, keys)
  {
    if Matchable(env, sigs, keys) {
      var f :| Matching(env, sigs, keys, f);
      var g := ReverseMatching(env, sigs, keys, f);
    }
    if Matchable(env, Reversed(sigs), Reversed(keys)) {
      var f :| Matching(env, Reversed(sigs), Reversed(keys), f);
      var g := ReverseMatching(env, Reversed(sigs), Reversed(keys), f);
      ReverseTwice(sigs);
      ReverseTwice(keys);
    }
  }

  // ---------------------------------------------------------------- the template

  /** OP_CHECKMULTISIG on the stack the template leaves. */
  lemma {:induction false} CheckMultisigOnTemplate(env: Env, sigs: seq<Bytes>, keys: seq<Bytes>)
    requires 1 <= |sigs| <= |keys| <= 15
    requires forall i :: 0 <= i < |sigs| ==> env.decodes(sigs[i])
    requires forall i :: 0 <= i < |keys| ==> env.decodes(keys[i])
    ensures
      var m: Byte, n: Byte := |sigs|, |keys|;
      var st := [[]] + sigs + [[m]] + keys + [[n]];
      var valid := Greedy(env, Reversed(sigs), Reversed(keys));
      CheckMultisig(env, st) == if valid < |sigs| then Abort(TooFewSignatures(valid, |sigs|)) else Continue([])
  {
    var m: Byte, n: Byte := |sigs|, |keys|;
    var st := [[]] + sigs + [[m]] + keys + [[n]];
    var base := [[]] + sigs + [[m]];
    assert Top(st) == [n] && Below(st) == base + keys;
    PopReverses(env, base, keys);
    assert Top(base) == [m] && Below(base) == [[]] + sigs;
    PopReverses(env, [[]], sigs);
    var bottom: Stack := [[]];
    assert Below(bottom) == [];
  }

  /** m-of-n multisig with m signatures succeeds exactly when the signatures match m of the keys in
      strictly increasing order. */
  lemma {:induction false} MultisigAcceptsExactly(env: Env, sigs: seq<Bytes>, keys: seq<Bytes>)
    requires forall i :: 0 <= i < |sigs| ==> env.decodes(sigs[i])
    requires forall i :: 0 <= i < |keys| ==> env.decodes(keys[i])
    requires MultisigLock(|sigs|, keys).Some? && MultisigUnlock(sigs).Some?
    ensures
      var outcome := RunScript(env, MultisigUnlock(sigs).value + MultisigLock(|sigs|, keys).value);
      && (outcome == Finished(true) <==> Matchable(env, sigs, keys))
      && (!Matchable(env, sigs, keys) ==> outcome.Failed? && outcome.error.TooFewSignatures?)
  {
    var m: Byte, n: Byte := |sigs|, |keys|;
    var final := Ops([(0x50 + n) as Byte, OP_CHECKMULTISIG], End);
    var lock := Then(Plain((0x50 + m) as Byte), Pushes(keys, final));
    var p := Then(Plain(OP_FALSE), Pushes(sigs, lock));
    MultisigEncoding(sigs, keys, final, lock, p);
    ScriptMeansProgram(env, p);
    EvalMultisig(env, sigs, keys, final, lock, p);
    GreedyComplete(env, Reversed(sigs), Reversed(keys));
    MatchableReversed(env, sigs, keys);
  }

  lemma {:induction false} MultisigEncoding(sigs: seq<Bytes>, keys: seq<Bytes>, final: Prog, lock: Prog, p: Prog)
    requires MultisigLock(|sigs|, keys).Some? && MultisigUnlock(sigs).Some?
    requires final == Ops([(0x50 + |keys|) as Byte, OP_CHECKMULTISIG], End)
    requires lock == Then(Plain((0x50 + |sigs|) as Byte), Pushes(keys, final))
    requires p == Then(Plain(OP_FALSE), Pushes(sigs, lock))
    ensures WellFormed(p) && Clean(p)
    ensures Encode(p) == MultisigUnlock(sigs).value + MultisigLock(|sigs|, keys).value
  {
    var countM: Byte, countN: Byte := 0x50 + |sigs|, 0x50 + |keys|;
    EncodeOps([countN, OP_CHECKMULTISIG], End);
    assert Encode(final) == [countN, OP_CHECKMULTISIG];
    EncodePushes(keys, final);
    EncodePlain(countM, Pushes(keys, final));
    EncodePushes(sigs, lock);
    EncodePlain(OP_FALSE, Pushes(sigs, lock));
    Joined(PushAll(sigs).value, [countM], PushAll(keys).value, [countN, OP_CHECKMULTISIG]);
  }

  lemma {:induction false} Joined(sigs: Bytes, countM: Bytes, keys: Bytes, end: Bytes)
    ensures [OP_FALSE] + (sigs + (countM + (keys + end))) == [OP_FALSE] + sigs + (countM + keys + end)
  {}

  lemma {:induction false} EvalMultisig(env: Env, sigs: seq<Bytes>, keys: seq<Bytes>, final: Prog, lock: Prog, p: Prog)
    requires 1 <= |sigs| <= |keys| <= 15
    requires forall i :: 0 <= i < |sigs| ==> env.decodes(sigs[i])
    requires forall i :: 0 <= i < |keys| ==> env.decodes(keys[i])
    requires final == Ops([(0x50 + |keys|) as Byte, OP_CHECKMULTISIG], End)
    requires lock == Then(Plain((0x50 + |sigs|) as Byte), Pushes(keys, final))
    requires p == Then(Plain(OP_FALSE), Pushes(sigs, lock))
    ensures
      var valid := Greedy(env, Reversed(sigs), Reversed(keys));
      Conclude(Eval(Opcodes(env), p, 0, [])) ==
        if valid < |sigs| then Failed(TooFewSignatures(valid, |sigs|)) else Finished(true)
  {
    var m: Byte, n: Byte := |sigs|, |keys|;
    var base: Stack := [[]] + sigs + [[m]];
    var valid := Greedy(env, Reversed(sigs), Reversed(keys));
    EvalUnlock(env, sigs, lock, p);
    EvalKeys(env, keys, m, final, lock, 1 + |sigs|, [[]] + sigs);
    CheckMultisigOnTemplate(env, sigs, keys);
    ConcludeCheck(env, base + keys, n, 2 + |sigs| + |keys|, final, valid, |sigs|);
  }

  lemma {:induction false} ConcludeCheck(env: Env, st: Stack, n: Byte, ops: nat, final: Prog, valid: nat, m: nat)
    requires 1 <= n <= 15 && ops < MAX_SCRIPT_OPS && |st| < MAX_STACK_DEPTH
    requires final == Ops([(0x50 + n) as Byte, OP_CHECKMULTISIG], End)
    requires CheckMultisig(env, st + [[n]]) == if valid < m then Abort(TooFewSignatures(valid, m)) else Continue([])
    ensures Conclude(Eval(Opcodes(env), final, ops, st)) ==
      if valid < m then Failed(TooFewSignatures(valid, m)) else Finished(true)
  {
    EvalCheck(env, st, n, ops, final);
  }

  lemma {:induction false} EvalUnlock(env: Env, sigs: seq<Bytes>, lock: Prog, p: Prog)
    requires |sigs| <= 15 && p == Then(Plain(OP_FALSE), Pushes(sigs, lock))
    ensures Eval(Opcodes(env), p, 0, []) == Eval(Opcodes(env), lock, 1 + |sigs|, [[]] + sigs)
  {
    var empty: Bytes := [];
    EvalOp(Opcodes(env), OP_FALSE, Pushes(sigs, lock), 0, []);
    assert Opcodes(env)(OP_FALSE, []) == Continue([empty]);
    EvalPushes(Opcodes(env), sigs, lock, 1, [empty]);
  }

  lemma {:induction false} EvalKeys(env: Env, keys: seq<Bytes>, m: Byte, final: Prog, lock: Prog, ops: nat, st: Stack)
    requires 1 <= m <= 15 && |keys| <= 15 && ops <= 20 && |st| <= 20
    requires lock == Then(Plain((0x50 + m) as Byte), Pushes(keys, final))
    ensures Eval(Opcodes(env), lock, ops, st) == Eval(Opcodes(env), final, ops + 1 + |keys|, st + [[m]] + keys)
  {
    EvalCount(env, 0x50 + m, m, Pushes(keys, final), ops, st);
    EvalPushes(Opcodes(env), keys, final, ops + 1, st + [[m]]);
  }

  /** The key count and the check itself. */
  lemma {:induction false} EvalCheck(env: Env, st: Stack, n: Byte, ops: nat, final: Prog)
    requires 1 <= n <= 15 && ops < MAX_SCRIPT_OPS && |st| < MAX_STACK_DEPTH
    requires final == Ops([(0x50 + n) as Byte, OP_CHECKMULTISIG], End)
    ensures Eval(Opcodes(env), final, ops, st) ==
      match ThenPush(CheckMultisig(env, st + [[n]]), [1])
      case Abort(e) => Stopped(Failed(e))
      case Continue(st') => Done(ops + 2, st')
  {
    var count: Byte := 0x50 + n;
    var check := Then(Plain(OP_CHECKMULTISIG), End);
    assert [count, OP_CHECKMULTISIG][1..] == [OP_CHECKMULTISIG] && [OP_CHECKMULTISIG][1..] == [];
    assert Ops([OP_CHECKMULTISIG], End) == check && final == Then(Plain(count), check);
    EvalCount(env, count, n, check, ops, st);
    EvalOp(Opcodes(env), OP_CHECKMULTISIG, End, ops + 1, st + [[n]]);
    assert Opcodes(env)(OP_CHECKMULTISIG, st + [[n]]) == ThenPush(CheckMultisig(env, st + [[n]]), [1]);
  }

  /** OP_1 to OP_15 push their number. */
  lemma {:induction false} EvalCount(env: Env, op: Byte, k: Byte, rest: Prog, ops: nat, st: Stack)
    requires 1 <= k <= 15 && op == 0x50 + k && ops <= MAX_SCRIPT_OPS && |st| < MAX_STACK_DEPTH
    ensures Eval(Opcodes(env), Then(Plain(op), rest), ops, st) == Eval(Opcodes(env), rest, ops + 1, st + [[k]])
  {}
}
