/** The interpreter itself (ScriptEngine): one mutable stack, one loop over the bytes. Its run is
    proved to be the run of the small-step machine. */
module ScriptVM {
  import opened Wrappers
  import opened Bytes
  import opened Script

  /** What a helper leaves behind: the new stack, or the error it raised. */
  ghost predicate Leaves(e: Effect, error: Option<Error>, st: Stack)
  {
    match e
    case Abort(raised) => error == Some(raised)
    case Continue(rest) => error == None && st == rest
  }

  class ScriptEngine {
    const blockHeight: int
    const hash256: Bytes -> Bytes
    const decodes: Bytes -> bool
    const verify: (Bytes, Bytes, Bytes) -> bool
    var signingMsg: Bytes
    var stack: Stack

    constructor (env: Env)
      ensures Environment() == env && stack == []
    {
      blockHeight, hash256, decodes, verify := env.blockHeight, env.hash256, env.decodes, env.verify;
      signingMsg, stack := env.signingMsg, [];
    }

    function Environment(): Env
      reads this`signingMsg
    {
      Env(blockHeight, signingMsg, hash256, decodes, verify)
    }

    // -------------------------------------------------------------- stack helpers

    method PushItem(data: Bytes) returns (error: Option<Error>)
      modifies this`stack
      ensures Leaves(Push(old(stack), data), error, stack)
      ensures error.Some? ==> stack == old(stack)
    {
      if |stack| >= MAX_STACK_DEPTH { return Some(StackOverflow); }
      stack := stack + [data];
      return None;
    }

    method PopItem() returns (item: Option<Bytes>)
      modifies this`stack
      ensures old(stack) == [] ==> item == None && stack == []
      ensures old(stack) != [] ==> item == Some(Top(old(stack))) && stack == Below(old(stack))
    {
      if stack == [] { return None; }
      item := Some(stack[|stack| - 1]);
      stack := stack[..|stack| - 1];
    }

    /** Pops two entries, the top one first. */
    method PopTwo() returns (items: Option<(Bytes, Bytes)>)
      modifies this`stack
      ensures |old(stack)| < 2 ==> items == None
      ensures |old(stack)| >= 2 ==>
        items == Some((Top(old(stack)), Top(Below(old(stack))))) && stack == Below(Below(old(stack)))
    {
      var a := PopItem();
      if a.None? { return None; }
      var b := PopItem();
      if b.None? { return None; }
      items := Some((a.value, b.value));
    }

    // -------------------------------------------------------------- signatures

    method PopTexts(n: nat) returns (items: seq<Bytes>, error: Option<Error>)
      modifies this`stack
      ensures
        match PopDecoded(Environment(), old(stack), n)
        case PopFailed(raised) => error == Some(raised)
        case Popped(popped, rest) => error == None && items == popped && stack == rest
    {
      items, error := [], None;
      ghost var start := stack;
      for i := 0 to n
        invariant |items| == i
        invariant Environment() == old(Environment())
        invariant PopDecoded(Environment(), start, n) == Prepend(items, PopDecoded(Environment(), stack, n - i))
      {
        ghost var before := stack;
        var item := PopItem();
        if item.None? { return items, Some(StackUnderflow); }
        if !decodes(item.value) { return items, Some(Exception); }
        PrependOneMore(items, item.value, PopDecoded(Environment(), stack, n - i - 1));
        items := items + [item.value];
      }
    }

    method CheckOneSignature() returns (error: Option<Error>)
      modifies this`stack
      ensures Leaves(CheckSig(Environment(), old(stack)), error, stack)
    {
      var items := PopTwo();
      if items.None? { return Some(StackUnderflow); }
      var (pub, sig) := items.value;
      if !decodes(pub) || !decodes(sig) { return Some(Exception); }
      return if verify(pub, signingMsg, sig) then None else Some(BadSignature);
    }

    /** The scan for matching keys: pk_idx never moves back. */
    method CountMatches(sigs: seq<Bytes>, keys: seq<Bytes>) returns (valid: nat)
      ensures valid == Greedy(Environment(), sigs, keys)
    {
      valid := 0;
      var next := 0;
      assert sigs[0..] == sigs && keys[0..] == keys;
      for i := 0 to |sigs|
        invariant next <= |keys|
        invariant valid + Greedy(Environment(), sigs[i..], keys[next..]) == Greedy(Environment(), sigs, keys)
      {
        var found := false;
        while next < |keys| && !found
          invariant next <= |keys|
          invariant valid + Greedy(Environment(), if found then sigs[i + 1..] else sigs[i..], keys[next..])
                 == Greedy(Environment(), sigs, keys)
          decreases |keys| - next, !found
        {
          assert keys[next..][1..] == keys[next + 1..] && sigs[i..][1..] == sigs[i + 1..];
          if verify(keys[next], signingMsg, sigs[i]) {
            valid, found := valid + 1, true;
          }
          next := next + 1;
        }
        assert next == |keys| ==> keys[next..] == [];
      }
      assert sigs[|sigs|..] == [];
    }

    method CheckManySignatures() returns (error: Option<Error>)
      modifies this`stack
      ensures Leaves(CheckMultisig(Environment(), old(stack)), error, stack)
    {
      var nByte := PopItem();
      if nByte.None? { return Some(StackUnderflow); }
      var keys, keyError := PopTexts(Count(nByte.value));
      if keyError.Some? { return keyError; }
      var mByte := PopItem();
      if mByte.None? { return Some(StackUnderflow); }
      var m := Count(mByte.value);
      var sigs, sigError := PopTexts(m);
      if sigError.Some? { return sigError; }
      if stack != [] { var dummy := PopItem(); }
      var valid := CountMatches(sigs, keys);
      return if valid < m then Some(TooFewSignatures(valid, m)) else None;
    }

    // -------------------------------------------------------------- dispatch

    method AddOrSubtract(sign: int) returns (error: Option<Error>)
      modifies this`stack
      ensures Leaves(Arithmetic(old(stack), sign), error, stack)
    {
      var items := PopTwo();
      if items.None? { return Some(StackUnderflow); }
      var result := ToLE4Signed(FromLESigned(items.value.1) + sign * FromLESigned(items.value.0));
      if result.None? { return Some(Exception); }
      error := PushItem(result.value);
    }

    /** Every opcode that is not OP_PUSH and not a conditional. */
    method Dispatch(op: Byte) returns (error: Option<Error>)
      modifies this`stack
      ensures Leaves(Execute(Environment(), op, old(stack)), error, stack)
    {
      if op == OP_TRUE {
        error := PushItem([1]);
      } else if op == OP_FALSE {
        error := PushItem([]);
      } else if op == OP_DUP {
        if stack == [] { return Some(StackUnderflow); }
        error := PushItem(stack[|stack| - 1]);
      } else if op == OP_DROP {
        var item := PopItem();
        return if item.None? then Some(StackUnderflow) else None;
      } else if op == OP_HASH256 {
        var item := PopItem();
        if item.None? { return Some(StackUnderflow); }
        error := PushItem(hash256(item.value));
      } else if op == OP_EQUAL {
        var items := PopTwo();
        if items.None? { return Some(StackUnderflow); }
        error := PushItem(if items.value.0 == items.value.1 then [1] else []);
      } else if op == OP_EQUALVERIFY {
        var items := PopTwo();
        if items.None? { return Some(StackUnderflow); }
        return if items.value.0 != items.value.1 then Some(EqualVerifyFailed) else None;
      } else if op == OP_NOT {
        var item := PopItem();
        if item.None? { return Some(StackUnderflow); }
        error := PushItem(if Truthy(item.value) then [] else [1]);
      } else if op == OP_ADD {
        error := AddOrSubtract(1);
      } else if op == OP_SUB {
        error := AddOrSubtract(-1);
      } else if op == OP_CHECKSIG {
        error := CheckOneSignature();
        if error.None? { error := PushItem([1]); }
      } else if op == OP_CHECKMULTISIG {
        error := CheckManySignatures();
        if error.None? { error := PushItem([1]); }
      } else if op == OP_CLAIMTIMEVERIFY {
        if stack == [] { return Some(StackUnderflow); }
        var height := FromLE(stack[|stack| - 1]);
        return if blockHeight < height then Some(Locked(height)) else None;
      } else if op == OP_RETURN {
        return Some(Unspendable);
      } else if 0x52 <= op <= 0x60 {
        error := PushItem([op - 0x50]);
      } else {
        return Some(UnknownOpcode(op));
      }
    }

    // -------------------------------------------------------------- the loop

    /** The inner loops of OP_IF and OP_ELSE; None is a read past the end of the bytes. */
    method SkipBranch(code: Bytes, start: nat, elseCloses: bool) returns (landing: Option<nat>)
      ensures landing == Skip(code, start, 1, elseCloses)
    {
      var idx, depth: nat := start, 1;
      while idx < |code| && depth > 0
        invariant Skip(code, start, 1, elseCloses) == Skip(code, idx, depth, elseCloses)
        decreases |code| - idx
      {
        var op := code[idx];
        if op == OP_PUSH {
          if idx + 1 >= |code| { return None; }
          idx := idx + 2 + code[idx + 1];
        } else {
          if op == OP_IF {
            depth := depth + 1;
          } else if op == OP_ENDIF || (op == OP_ELSE && elseCloses) {
            depth := depth - 1;
          }
          idx := idx + 1;
        }
      }
      return Some(idx);
    }

    /** One opcode of the loop: the index behind it, or the error it ends the run with. */
    method Round(code: Bytes, start: nat, ghost ops: nat) returns (idx: nat, error: Option<Error>)
      requires start < |code| && ops <= MAX_SCRIPT_OPS
      modifies this`stack
      ensures
        match Step(Opcodes(Environment()), code, Running(start, ops, old(stack)))
        case Halted(outcome) => error.Some? && outcome == Failed(error.value)
        case Running(next, ops', st) => error == None && idx == next && stack == st && ops' == ops + 1
    {
      var op := code[start];
      idx, error := start + 1, None;
      if op == OP_PUSH {
        if idx >= |code| { return idx, Some(Exception); }
        var len := code[idx];
        idx := idx + 1;
        error := PushItem(Slice(code, idx, idx + len));
        idx := idx + len;
      } else if op == OP_IF {
        var cond := PopItem();
        if cond.None? { return idx, Some(StackUnderflow); }
        if !Truthy(cond.value) {
          var landing := SkipBranch(code, idx, true);
          if landing.None? { return idx, Some(Exception); }
          idx := landing.value;
        }
      } else if op == OP_ELSE {
        var landing := SkipBranch(code, idx, false);
        if landing.None? { return idx, Some(Exception); }
        idx := landing.value;
      } else if op != OP_ENDIF {
        error := Dispatch(op);
      }
    }

    /** Runs the bytes on an empty stack. The result is that of the small-step machine; on the way
        the stack holds at most 64 entries and at most 202 opcodes are dispatched. */
    method Run(code: Bytes, msg: Option<Bytes>) returns (outcome: Outcome)
      modifies this
      ensures signingMsg == if msg.Some? then msg.value else old(signingMsg)
      ensures outcome == RunScript(Environment(), code)
    {
      if msg.Some? { signingMsg := msg.value; }
      stack := [];
      var idx: nat, ops: nat := 0, 0;
      ghost var exec := Opcodes(Environment());
      while idx < |code|
        invariant signingMsg == if msg.Some? then msg.value else old(signingMsg)
        invariant exec == Opcodes(Environment())
        invariant |stack| <= MAX_STACK_DEPTH && ops <= MAX_SCRIPT_OPS + 1
        invariant Finish(exec, code, Running(idx, ops, stack)) == RunScript(Environment(), code)
        decreases MAX_SCRIPT_OPS + 2 - ops
      {
        ghost var before := Running(idx, ops, stack);
        assert Finish(exec, code, before) == Finish(exec, code, Step(exec, code, before));
        if ops > MAX_SCRIPT_OPS { return Failed(OpLimit); }
        var next, error := Round(code, idx, ops);
        if error.Some? { return Failed(error.value); }
        idx, ops := next, ops + 1;
      }
      outcome := if stack == [] then Failed(EmptyStack) else Finished(Truthy(stack[|stack| - 1]));
    }
  }

  // ---------------------------------------------------------------- popping one after the other

  /** The result of popping further, with the items popped already in front. */
  function Prepend(items: seq<Bytes>, rest: Popped): Popped
  {
    match rest
    case PopFailed(_) => rest
    case Popped(more, st) => Popped(items + more, st)
  }

  lemma {:induction false} PrependOneMore(items: seq<Bytes>, item: Bytes, rest: Popped)
    ensures Prepend(items, Prepend([item], rest)) == Prepend(items + [item], rest)
  {}
}
