/**
 * Properties of the validator's stack simulation (`tycheck_expr`,
 * `tycheck_block`, `tycheck_function` in `xir/src/validate.rs`): the stack
 * shuffles and their inverses, the lvalue/rvalue discipline, label
 * collection, and small programs that show how the validator treats calls,
 * `Derive`, block exits and labels.
 */
module XirBlockFacts {
  import opened Wrappers
  import opened Prim
  import opened Ir
  import opened XirTypes
  import opened XirTypeFacts
  import opened XirSimulate
  import opened XirValidate

  // ------------------------------------------------------ stack shuffles

  /** `Pivot(n, m)` only reorders the stack: same length, same items. */
  lemma PivotPermutes(n: u32, m: u32, vs: Stack)
    requires n as int + m as int <= |vs|
    ensures PivotEffect(n, m, vs).Success?
    ensures |PivotEffect(n, m, vs).value| == |vs|
    ensures multiset(PivotEffect(n, m, vs).value) == multiset(vs)
  {
    var back1 := |vs| - m as int;
    var back2 := back1 - n as int;
    assert vs == vs[..back2] + vs[back2..back1] + vs[back1..];
  }

  /** `Pivot(m, n)` undoes `Pivot(n, m)`. */
  lemma PivotInverse(n: u32, m: u32, vs: Stack)
    requires n as int + m as int <= |vs|
    ensures PivotEffect(n, m, vs).Success?
    ensures PivotEffect(m, n, PivotEffect(n, m, vs).value) == Success(vs)
  {
    var back1 := |vs| - m as int;
    var back2 := back1 - n as int;
    var ws := vs[..back2] + vs[back1..] + vs[back2..back1];
    assert PivotEffect(n, m, vs) == Success(ws);
    var c1 := |ws| - n as int;
    var c2 := c1 - m as int;
    assert c2 == back2 && c1 == back2 + m as int;
    assert ws[..c2] == vs[..back2];
    assert ws[c1..] == vs[back2..back1];
    assert ws[c2..c1] == vs[back1..];
    assert vs == vs[..back2] + vs[back2..back1] + vs[back1..];
  }

  /** `Pop(n)` undoes `Dup(n)`. */
  lemma DupThenPop(n: u32, vs: Stack)
    requires n as int <= |vs|
    ensures DupEffect(n, vs).Success?
    ensures PopEffect(n, DupEffect(n, vs).value) == Success(vs)
  {
    var ws := DupEffect(n, vs).value;
    assert ws[..|ws| - n as int] == vs;
  }

  // --------------------------------------------------- value categories

  /**
   * `AddrOf` leaves its result an lvalue, so an `Indirect` straight after it
   * is rejected; reading the pointer with `AsRValue` first makes `Indirect`
   * give back the original lvalue.
   */
  lemma AddrOfKeepsLValue(vs: Stack, t: Type)
    ensures AddrOfEffect(vs + [LV(t)]) == Success(vs + [LV(PointerTo(t))])
    ensures IndirectEffect(vs + [LV(PointerTo(t))]) == Failure(KindMismatch)
    ensures AsRValueEffect(vs + [LV(PointerTo(t))]) == Success(vs + [RV(PointerTo(t))])
    ensures IndirectEffect(vs + [RV(PointerTo(t))]) == Success(vs + [LV(t)])
  {
    assert (vs + [LV(t)])[..|vs|] == vs;
    assert (vs + [LV(PointerTo(t))])[..|vs|] == vs;
    assert (vs + [RV(PointerTo(t))])[..|vs|] == vs;
  }

  /** An rvalue can never be assigned to: `Assign` needs the lvalue below the rvalue. */
  lemma AssignNeedsLValue(env: Env, vs: Stack, a: Type, b: Type)
    ensures AssignEffect(env, vs + [RV(a), RV(b)]).Failure?
  {
    assert (vs + [RV(a), RV(b)])[..|vs| + 1] == vs + [RV(a)];
  }

  // ------------------------------------------------------------ labels

  /** No label number occurs twice among the first `k` items. */
  ghost predicate DistinctLabels(items: seq<BlockItem>, k: nat)
    requires k <= |items|
  {
    forall i, j :: 0 <= i < j < k && items[i].Target? && items[j].Target? ==> items[i].num != items[j].num
  }

  /**
   * Label collection succeeds exactly when no label is declared twice, and
   * then maps every label, and nothing else, to its declared stack.
   */
  lemma {:induction false} CollectTargetsSpec(items: seq<BlockItem>, k: nat)
    requires k <= |items|
    ensures CollectTargets(items, k).Success? <==> DistinctLabels(items, k)
    ensures CollectTargets(items, k).Success? ==>
              forall i :: 0 <= i < k && items[i].Target? ==>
                items[i].num in CollectTargets(items, k).value &&
                CollectTargets(items, k).value[items[i].num] == items[i].stack
    ensures CollectTargets(items, k).Success? ==>
              forall n :: n in CollectTargets(items, k).value ==>
                exists i :: 0 <= i < k && items[i].Target? && items[i].num == n
  {
    if k > 0 {
      CollectTargetsSpec(items, k - 1);
      var prev := CollectTargets(items, k - 1);
      if prev.Success? && items[k - 1].Target? && items[k - 1].num in prev.value {
        var i :| 0 <= i < k - 1 && items[i].Target? && items[i].num == items[k - 1].num;
        assert !DistinctLabels(items, k);
      }
      if prev.Failure? {
        assert !DistinctLabels(items, k - 1);
        var i, j :| 0 <= i < j < k - 1 && items[i].Target? && items[j].Target? && items[i].num == items[j].num;
        assert !DistinctLabels(items, k);
      }
    }
  }

  /** A block prefix without labels collects no labels. */
  lemma {:induction false} NoLabelsCollected(items: seq<BlockItem>, k: nat)
    requires k <= |items|
    requires forall i :: 0 <= i < k ==> items[i].Expr?
    ensures CollectTargets(items, k) == Success(map[])
  {
    if k > 0 {
      NoLabelsCollected(items, k - 1);
    }
  }

  /**
   * At a label, the live stack is first checked against the label's stack
   * (the `diverged` flag never suppresses this) and then replaced by exactly
   * that stack.
   */
  lemma ReplayAtLabel(env: Env, targets: Targets, b: Block, k: nat, init: Sim)
    requires 0 < k <= |b.items| && b.items[k - 1].Target?
    requires Replay(env, targets, b, k, init).Success?
    ensures Replay(env, targets, b, k - 1, init).Success?
    ensures CheckUnifyStack(env.ts, Replay(env, targets, b, k - 1, init).value.1.vstack, b.items[k - 1].stack, env.fuel).Success?
    ensures Replay(env, targets, b, k, init).value.1.vstack == b.items[k - 1].stack
  {
  }

  // ------------------------------------------------ single-step rules

  /** An integer constant pushes one rvalue of its scalar type. */
  lemma IntegerConstStep(env: Env, targets: Targets, s: ScalarType, n: u32, st: Sim)
    ensures Step(env, targets, Expr.Const(Value.Integer(s, n)), st) ==
              Success((Expr.Const(Value.Integer(s, n)), Sim(st.exits, st.vstack + [RV(Type.Scalar(s))])))
  {
    var v := Value.Integer(s, n);
    var c := ConstEffect(env, targets, v, st.vstack);
    assert c.value.0 == v && c.value.1 == st.vstack + [RV(Type.Scalar(s))];
  }

  /** Arithmetic on two integer rvalues of one type pushes one rvalue of that type (no flag unless checked). */
  lemma ArithmeticStep(env: Env, targets: Targets, op: BinaryOp, ov: OverflowBehaviour, s: ScalarType, st: Sim)
    requires !IsThreeWayCompare(op) && !IsComparison(op) && ov != Checked
    ensures Step(env, targets, Expr.BinaryOp(op, ov), Sim(st.exits, st.vstack + [RV(Type.Scalar(s)), RV(Type.Scalar(s))])) ==
              Success((Expr.BinaryOp(op, ov), Sim(st.exits, st.vstack + [RV(Type.Scalar(s))])))
  {
    var vs := st.vstack + [RV(Type.Scalar(s)), RV(Type.Scalar(s))];
    assert vs[..|vs| - 1] == st.vstack + [RV(Type.Scalar(s))];
    assert (st.vstack + [RV(Type.Scalar(s))])[..|st.vstack|] == st.vstack;
    var r := BinaryOpEffect(env, op, ov, vs);
    assert r.value == st.vstack + [RV(Type.Scalar(s))];
  }

  /** The first exit to a block records the top items as its result. */
  lemma FirstExitStep(env: Env, targets: Targets, blk: u32, exits: Exits, below: Stack, top: Stack)
    requires blk as int < |exits| && exits[blk].None? && |top| < 0x1_0000
    ensures Step(env, targets, Expr.ExitBlock(blk, |top| as u16), Sim(exits, below + top)) ==
              Success((Expr.ExitBlock(blk, |top| as u16), Sim(exits[blk := Some(top)], below)))
  {
    var vs := below + top;
    assert vs[..|below|] == below && vs[|below|..] == top;
    var r := ExitBlockEffect(env, blk, |top| as u16, Sim(exits, vs));
    assert r.value.exits == exits[blk := Some(top)] && r.value.vstack == below;
  }

  /** A later exit with a different number of items than the recorded result is rejected. */
  lemma LaterExitArityStep(env: Env, targets: Targets, blk: u32, values: u16, st: Sim)
    requires blk as int < |st.exits| && st.exits[blk].Some? && values as int <= |st.vstack|
    requires |st.exits[blk].value| != values as int
    ensures Step(env, targets, Expr.ExitBlock(blk, values), st) == Failure(ExitArityMismatch)
  {
  }

  /** `Local(n)` pushes an lvalue of the local's type. */
  lemma LocalStep(env: Env, targets: Targets, n: u32, st: Sim)
    requires (n as int) < |env.locals|
    ensures Step(env, targets, Expr.Local(n), st) == Success((Expr.Local(n), Sim(st.exits, st.vstack + [LV(env.locals[n])])))
  {
    var r := LocalEffect(env, n, st.vstack);
    assert r.value == st.vstack + [LV(env.locals[n])];
  }

  /** `AsRValue` turns the top lvalue into an rvalue of the same type. */
  lemma AsRValueStep(env: Env, targets: Targets, acc: AccessClass, st: Sim, t: Type)
    ensures Step(env, targets, Expr.AsRValue(acc), Sim(st.exits, st.vstack + [LV(t)])) ==
              Success((Expr.AsRValue(acc), Sim(st.exits, st.vstack + [RV(t)])))
  {
    var vs := st.vstack + [LV(t)];
    assert vs[..|vs| - 1] == st.vstack;
    var r := AsRValueEffect(vs);
    assert r.value == st.vstack + [RV(t)];
  }

  /** The replay of no items is the initial state. */
  lemma ReplayStart(env: Env, targets: Targets, b: Block, init: Sim)
    ensures Replay(env, targets, b, 0, init) == Success((b.items[..0], init))
  {
    assert b.items[..0] == [];
  }

  /** Replaying one more expression item that its step leaves unchanged is stepping the replayed state by it. */
  lemma ReplayExprItem(env: Env, targets: Targets, b: Block, k: nat, init: Sim, st: Sim, st': Sim)
    requires 0 < k <= |b.items| && b.items[k - 1].Expr?
    requires Replay(env, targets, b, k - 1, init) == Success((b.items[..k - 1], st))
    requires Step(env, targets, b.items[k - 1].expr, st) == Success((b.items[k - 1].expr, st'))
    ensures Replay(env, targets, b, k, init) == Success((b.items[..k], st'))
  {
    assert b.items[..k - 1] + [b.items[k - 1]] == b.items[..k];
  }

  /** Replaying one more label item checks the live stack against it and continues from its stack. */
  lemma ReplayLabelItem(env: Env, targets: Targets, b: Block, k: nat, init: Sim, st: Sim)
    requires 0 < k <= |b.items| && b.items[k - 1].Target?
    requires Replay(env, targets, b, k - 1, init) == Success((b.items[..k - 1], st))
    requires CheckUnifyStack(env.ts, st.vstack, b.items[k - 1].stack, env.fuel).Success?
    ensures Replay(env, targets, b, k, init) == Success((b.items[..k], Sim(st.exits, b.items[k - 1].stack)))
  {
    assert b.items[..k - 1] + [b.items[k - 1]] == b.items[..k];
  }

  /** Replaying an integer constant item. */
  lemma ReplayConst(env: Env, targets: Targets, b: Block, k: nat, init: Sim, st: Sim, s: ScalarType, n: u32)
    requires 0 < k <= |b.items| && b.items[k - 1] == BlockItem.Expr(Expr.Const(Value.Integer(s, n)))
    requires Replay(env, targets, b, k - 1, init) == Success((b.items[..k - 1], st))
    ensures Replay(env, targets, b, k, init) == Success((b.items[..k], Sim(st.exits, st.vstack + [RV(Type.Scalar(s))])))
  {
    IntegerConstStep(env, targets, s, n, st);
    ReplayExprItem(env, targets, b, k, init, st, Sim(st.exits, st.vstack + [RV(Type.Scalar(s))]));
  }

  /** Replaying an unchecked arithmetic item over two values of one scalar type on top of `st`. */
  lemma ReplayArithmetic(env: Env, targets: Targets, b: Block, k: nat, init: Sim, st: Sim, s: ScalarType, op: BinaryOp, ov: OverflowBehaviour)
    requires !IsThreeWayCompare(op) && !IsComparison(op) && ov != Checked
    requires 0 < k <= |b.items| && b.items[k - 1] == BlockItem.Expr(Expr.BinaryOp(op, ov))
    requires Replay(env, targets, b, k - 1, init) == Success((b.items[..k - 1], Sim(st.exits, st.vstack + [RV(Type.Scalar(s)), RV(Type.Scalar(s))])))
    ensures Replay(env, targets, b, k, init) == Success((b.items[..k], Sim(st.exits, st.vstack + [RV(Type.Scalar(s))])))
  {
    ArithmeticStep(env, targets, op, ov, s, st);
    ReplayExprItem(env, targets, b, k, init, Sim(st.exits, st.vstack + [RV(Type.Scalar(s)), RV(Type.Scalar(s))]),
                   Sim(st.exits, st.vstack + [RV(Type.Scalar(s))]));
  }

  /** Replaying the first exit to a block with the items `top` above `st`. */
  lemma ReplayFirstExit(env: Env, targets: Targets, b: Block, k: nat, init: Sim, st: Sim, blk: u32, top: Stack)
    requires blk as int < |st.exits| && st.exits[blk].None? && |top| < 0x1_0000
    requires 0 < k <= |b.items| && b.items[k - 1] == BlockItem.Expr(Expr.ExitBlock(blk, |top| as u16))
    requires Replay(env, targets, b, k - 1, init) == Success((b.items[..k - 1], Sim(st.exits, st.vstack + top)))
    ensures Replay(env, targets, b, k, init) == Success((b.items[..k], Sim(st.exits[blk := Some(top)], st.vstack)))
  {
    FirstExitStep(env, targets, blk, st.exits, st.vstack, top);
    ReplayExprItem(env, targets, b, k, init, Sim(st.exits, st.vstack + top), Sim(st.exits[blk := Some(top)], st.vstack));
  }

  /** Replaying a later exit whose arity differs from the recorded one. */
  lemma ReplayLaterExitArity(env: Env, targets: Targets, b: Block, k: nat, init: Sim, st: Sim, blk: u32, values: u16)
    requires blk as int < |st.exits| && st.exits[blk].Some? && values as int <= |st.vstack|
    requires |st.exits[blk].value| != values as int
    requires 0 < k <= |b.items| && b.items[k - 1] == BlockItem.Expr(Expr.ExitBlock(blk, values))
    requires Replay(env, targets, b, k - 1, init) == Success((b.items[..k - 1], st))
    ensures Replay(env, targets, b, k, init) == Failure(ExitArityMismatch)
  {
    LaterExitArityStep(env, targets, blk, values, st);
  }

  /** Replaying an exit that asks for more values than the stack holds. */
  lemma ReplayExitUnderflow(env: Env, targets: Targets, b: Block, k: nat, init: Sim, st: Sim, blk: u32, values: u16)
    requires blk as int < |st.exits| && values as int > |st.vstack|
    requires 0 < k <= |b.items| && b.items[k - 1] == BlockItem.Expr(Expr.ExitBlock(blk, values))
    requires Replay(env, targets, b, k - 1, init) == Success((b.items[..k - 1], st))
    ensures Replay(env, targets, b, k, init) == Failure(StackUnderflow)
  {
    assert Step(env, targets, b.items[k - 1].expr, st) == Failure(StackUnderflow);
  }

  /** Replaying a `Local` item. */
  lemma ReplayLocal(env: Env, targets: Targets, b: Block, k: nat, init: Sim, st: Sim, n: u32)
    requires (n as int) < |env.locals|
    requires 0 < k <= |b.items| && b.items[k - 1] == BlockItem.Expr(Expr.Local(n))
    requires Replay(env, targets, b, k - 1, init) == Success((b.items[..k - 1], st))
    ensures Replay(env, targets, b, k, init) == Success((b.items[..k], Sim(st.exits, st.vstack + [LV(env.locals[n])])))
  {
    LocalStep(env, targets, n, st);
    ReplayExprItem(env, targets, b, k, init, st, Sim(st.exits, st.vstack + [LV(env.locals[n])]));
  }

  /** `Derive` over a pointer rvalue whose pointee unifies with its own pops that pointer. */
  lemma DeriveTailDrops(env: Env, pty: PointerType, vs: Stack, p: Type)
    requires p.Pointer? && p.ptr.pointee == pty.pointee && SelfUnifiable(env.ts, pty.pointee)
    ensures DeriveTail(env, pty, vs + [RV(p)]) == Success(vs)
  {
    UnifyReflexive(env.ts, pty.pointee, env.fuel);
    assert (vs + [RV(p)])[..|vs|] == vs;
  }

  /** `Derive(pty, AsRValue)` over a pointer lvalue leaves nothing in its place. */
  lemma DeriveAsRValueStep(env: Env, targets: Targets, pty: PointerType, acc: AccessClass, st: Sim, p: Type)
    requires p.Pointer? && p.ptr.pointee == pty.pointee && SelfUnifiable(env.ts, pty.pointee)
    ensures Step(env, targets, Expr.Derive(pty, Expr.AsRValue(acc)), Sim(st.exits, st.vstack + [LV(p)])) ==
              Success((Expr.Derive(pty, Expr.AsRValue(acc)), st))
  {
    AsRValueStep(env, targets, acc, st, p);
    DeriveTailDrops(env, pty, st.vstack, p);
  }

  /** Replaying a `Derive(pty, AsRValue)` item over a pointer lvalue. */
  lemma ReplayDeriveAsRValue(env: Env, targets: Targets, b: Block, k: nat, init: Sim, st: Sim, pty: PointerType, acc: AccessClass, p: Type)
    requires p.Pointer? && p.ptr.pointee == pty.pointee && SelfUnifiable(env.ts, pty.pointee)
    requires 0 < k <= |b.items| && b.items[k - 1] == BlockItem.Expr(Expr.Derive(pty, Expr.AsRValue(acc)))
    requires Replay(env, targets, b, k - 1, init) == Success((b.items[..k - 1], Sim(st.exits, st.vstack + [LV(p)])))
    ensures Replay(env, targets, b, k, init) == Success((b.items[..k], st))
  {
    DeriveAsRValueStep(env, targets, pty, acc, st, p);
    ReplayExprItem(env, targets, b, k, init, Sim(st.exits, st.vstack + [LV(p)]), st);
  }

  /** Replaying a label of one integer value when that value tops the live stack. */
  lemma ReplayMatchingLabel(env: Env, targets: Targets, b: Block, k: nat, init: Sim, st: Sim, n: u32, s: ScalarType)
    requires s.kind.Integer?
    requires 0 < k <= |b.items| && b.items[k - 1] == BlockItem.Target(n, [RV(Type.Scalar(s))])
    requires Replay(env, targets, b, k - 1, init) == Success((b.items[..k - 1], Sim(st.exits, st.vstack + [RV(Type.Scalar(s))])))
    ensures Replay(env, targets, b, k, init) == Success((b.items[..k], Sim(st.exits, [RV(Type.Scalar(s))])))
  {
    var t := [RV(Type.Scalar(s))];
    var vs := st.vstack + t;
    assert vs[|vs| - 1..] == t && t[1..] == [];
    IntegerUnifyRule(env.ts, s.header, s.header, s.kind.signed, s.kind.signed, s.kind.min, s.kind.max, s.kind.min, s.kind.max, env.fuel);
    assert UnifyItems(env.ts, t, t, env.fuel, StackItemMismatch) == Ok;
    ReplayLabelItem(env, targets, b, k, init, Sim(st.exits, vs));
  }

  /** Running a block whose labels are collected and whose items replay to a final state. */
  lemma RunBlockFrom(env: Env, b: Block, exits: Exits, targets: Targets, fin: Sim)
    requires CollectTargets(b.items, |b.items|) == Success(targets)
    requires Replay(env, targets, b, |b.items|, Sim(exits + [Option.None], [])) == Success((b.items[..|b.items|], fin))
    ensures |fin.exits| == |exits| + 1
    ensures RunBlock(env, b, exits) == Success((b, fin.exits[|exits|].GetOr([]), fin.exits[..|exits|]))
  {
    assert b.items[..|b.items|] == b.items;
  }

  /** A block whose items replay to an error fails with it. */
  lemma RunBlockFails(env: Env, b: Block, exits: Exits, targets: Targets, e: Error)
    requires CollectTargets(b.items, |b.items|) == Success(targets)
    requires Replay(env, targets, b, |b.items|, Sim(exits + [Option.None], [])) == Failure(e)
    ensures RunBlock(env, b, exits) == Failure(e)
  {
  }

  // ---------------------------------------------------- small programs

  /** A function of type `fn() -> ret` with the given items as its body and no extra locals. */
  function Nullary(ret: Type, items: seq<BlockItem>): FunctionDeclaration {
    FunctionDeclaration(FnTy(ret, [], false, Abi.C), Some(FunctionBody([], Block.Block(items))))
  }

  /** `x op y` on two constants of scalar type `s`, used as the block's result. */
  function AddBody(s: ScalarType, x: u32, y: u32, op: BinaryOp, ov: OverflowBehaviour): seq<BlockItem> {
    [BlockItem.Expr(Expr.Const(Value.Integer(s, x))), BlockItem.Expr(Expr.Const(Value.Integer(s, y))),
     BlockItem.Expr(Expr.BinaryOp(op, ov)), BlockItem.Expr(Expr.ExitBlock(0, 1))]
  }

  /** Replaying two integer constants of one type pushes two values of that type. */
  lemma TwoConstsReplay(env: Env, targets: Targets, b: Block, init: Sim, s: ScalarType, x: u32, y: u32)
    requires |b.items| >= 2
    requires b.items[0] == BlockItem.Expr(Expr.Const(Value.Integer(s, x)))
    requires b.items[1] == BlockItem.Expr(Expr.Const(Value.Integer(s, y)))
    ensures Replay(env, targets, b, 2, init) == Success((b.items[..2], Sim(init.exits, init.vstack + [RV(Type.Scalar(s)), RV(Type.Scalar(s))])))
  {
    var t := RV(Type.Scalar(s));
    ReplayStart(env, targets, b, init);
    ReplayConst(env, targets, b, 1, init, init, s, x);
    ReplayConst(env, targets, b, 2, init, Sim(init.exits, init.vstack + [t]), s, y);
    assert init.vstack + [t] + [t] == init.vstack + [t, t];
  }

  /** Replaying `AddBody` records one value of its type as the result of the innermost open block. */
  lemma ArithmeticReplay(env: Env, targets: Targets, b: Block, init: Sim, s: ScalarType, x: u32, y: u32, op: BinaryOp, ov: OverflowBehaviour)
    requires !IsThreeWayCompare(op) && !IsComparison(op) && ov != Checked
    requires b.items == AddBody(s, x, y, op, ov) && |init.exits| >= 1 && init.exits[0].None?
    ensures Replay(env, targets, b, 4, init) == Success((b.items[..4], Sim(init.exits[0 := Some([RV(Type.Scalar(s))])], init.vstack)))
  {
    TwoConstsReplay(env, targets, b, init, s, x, y);
    ReplayArithmetic(env, targets, b, 3, init, init, s, op, ov);
    ReplayFirstExit(env, targets, b, 4, init, init, 0, [RV(Type.Scalar(s))]);
  }

  /** Two constants and unchecked arithmetic on them leave one value of their type as the block's result. */
  lemma ArithmeticBlock(env: Env, s: ScalarType, x: u32, y: u32, op: BinaryOp, ov: OverflowBehaviour)
    requires !IsThreeWayCompare(op) && !IsComparison(op) && ov != Checked
    ensures var b := Block.Block(AddBody(s, x, y, op, ov));
            RunBlock(env, b, []) == Success((b, [RV(Type.Scalar(s))], []))
  {
    var b := Block.Block(AddBody(s, x, y, op, ov));
    var init := Sim([] + [Option.None], []);
    NoLabelsCollected(b.items, |b.items|);
    ArithmeticReplay(env, map[], b, init, s, x, y, op, ov);
    RunBlockFrom(env, b, [], map[], Sim(init.exits[0 := Some([RV(Type.Scalar(s))])], []));
  }

  /**
   * `fn() -> i32 { 1 + 2 }`, for any integer type in place of `i32`, checks;
   * in a function returning `void` the same body is rejected, because a
   * `void` function's body must yield nothing.
   */
  lemma ArithmeticFunction(ts: TypeState, s: ScalarType, x: u32, y: u32, op: BinaryOp, ov: OverflowBehaviour, fuel: nat)
    requires !IsThreeWayCompare(op) && !IsComparison(op) && ov != Checked && s.kind.Integer?
    ensures var body := AddBody(s, x, y, op, ov);
            CheckFunction(ts, Nullary(Type.Scalar(s), body), fuel) == Success(Nullary(Type.Scalar(s), body))
    ensures CheckFunction(ts, Nullary(Void, AddBody(s, x, y, op, ov)), fuel) == Failure(ReturnArityMismatch)
  {
    var body := AddBody(s, x, y, op, ov);
    ArithmeticBlock(Env(ts, [], fuel), s, x, y, op, ov);
    assert Nullary(Type.Scalar(s), body).ty.params + [] == [];
    IntegerUnifyRule(ts, s.header, s.header, s.kind.signed, s.kind.signed, s.kind.min, s.kind.max, s.kind.min, s.kind.max, fuel);
  }

  /** A stack of two values falling into a label that declares one is accepted: only the top item is checked. */
  lemma LabelChecksOnlyTop(env: Env, s: ScalarType, x: u32, y: u32, n: u32)
    requires s.kind.Integer?
    ensures var items := [BlockItem.Expr(Expr.Const(Value.Integer(s, x))), BlockItem.Expr(Expr.Const(Value.Integer(s, y))),
                          BlockItem.Target(n, [RV(Type.Scalar(s))])];
            RunBlock(env, Block.Block(items), []).Success?
  {
    var t := RV(Type.Scalar(s));
    var b := Block.Block([BlockItem.Expr(Expr.Const(Value.Integer(s, x))), BlockItem.Expr(Expr.Const(Value.Integer(s, y))),
                          BlockItem.Target(n, [t])]);
    var init := Sim([] + [Option.None], []);
    var targets := map[n := [t]];
    NoLabelsCollected(b.items, 2);
    assert CollectTargets(b.items, 3) == Success(targets);
    TwoConstsReplay(env, targets, b, init, s, x, y);
    assert init.vstack + [t] + [t] == init.vstack + [t, t];
    ReplayMatchingLabel(env, targets, b, 3, init, Sim(init.exits, init.vstack + [t]), n, s);
    RunBlockFrom(env, b, [], targets, Sim(init.exits, [t]));
  }

  /** Two labels with the same number are rejected before any expression is looked at. */
  lemma DuplicateLabelRejected(env: Env, items: seq<BlockItem>, exits: Exits)
    requires |items| >= 2 && items[0].Target? && items[1].Target? && items[0].num == items[1].num
    ensures RunBlock(env, Block.Block(items), exits) == Failure(DuplicateTarget)
  {
    CollectTargetsSpec(items, |items|);
  }

  /** The replay behind `LaterExitMustMatchFirst`, from any state whose innermost open block has no result yet. */
  lemma LaterExitReplay(env: Env, b: Block, init: Sim, s: ScalarType, x: u32, y: u32, z: u32)
    requires |init.exits| >= 1 && init.exits[0].None?
    requires b.items == [BlockItem.Expr(Expr.Const(Value.Integer(s, x))), BlockItem.Expr(Expr.ExitBlock(0, 1)),
                         BlockItem.Expr(Expr.Const(Value.Integer(s, y))), BlockItem.Expr(Expr.Const(Value.Integer(s, z))),
                         BlockItem.Expr(Expr.ExitBlock(0, 2))]
    ensures Replay(env, map[], b, 5, init) == Failure(ExitArityMismatch)
  {
    var t := RV(Type.Scalar(s));
    var st := Sim(init.exits[0 := Some([t])], init.vstack);
    ReplayStart(env, map[], b, init);
    ReplayConst(env, map[], b, 1, init, init, s, x);
    ReplayFirstExit(env, map[], b, 2, init, init, 0, [t]);
    ReplayConst(env, map[], b, 3, init, st, s, y);
    ReplayConst(env, map[], b, 4, init, Sim(st.exits, st.vstack + [t]), s, z);
    ReplayLaterExitArity(env, map[], b, 5, init, Sim(st.exits, st.vstack + [t] + [t]), 0, 2);
  }

  /** Exiting a block first with one value and then with two is rejected: later exits must match the first. */
  lemma LaterExitMustMatchFirst(env: Env, s: ScalarType, x: u32, y: u32, z: u32)
    ensures var items := [BlockItem.Expr(Expr.Const(Value.Integer(s, x))), BlockItem.Expr(Expr.ExitBlock(0, 1)),
                          BlockItem.Expr(Expr.Const(Value.Integer(s, y))), BlockItem.Expr(Expr.Const(Value.Integer(s, z))),
                          BlockItem.Expr(Expr.ExitBlock(0, 2))];
            RunBlock(env, Block.Block(items), []) == Failure(ExitArityMismatch)
  {
    var b := Block.Block([BlockItem.Expr(Expr.Const(Value.Integer(s, x))), BlockItem.Expr(Expr.ExitBlock(0, 1)),
                          BlockItem.Expr(Expr.Const(Value.Integer(s, y))), BlockItem.Expr(Expr.Const(Value.Integer(s, z))),
                          BlockItem.Expr(Expr.ExitBlock(0, 2))]);
    NoLabelsCollected(b.items, |b.items|);
    LaterExitReplay(env, b, Sim([] + [Option.None], []), s, x, y, z);
    RunBlockFails(env, b, [], map[], ExitArityMismatch);
  }

  /**
   * `Derive` consumes the pointer it refines and pushes nothing back: a body
   * that reads a pointer local, derives it and exits with it is rejected for
   * want of a value to exit with.
   */
  lemma DeriveDropsPointer(env: Env, pty: PointerType, acc: AccessClass)
    requires |env.locals| >= 1 && env.locals[0].Pointer? && SelfUnifiable(env.ts, pty.pointee)
    requires env.locals[0].ptr.pointee == pty.pointee
    ensures var items := [BlockItem.Expr(Expr.Local(0)), BlockItem.Expr(Expr.Derive(pty, Expr.AsRValue(acc))),
                          BlockItem.Expr(Expr.ExitBlock(0, 1))];
            RunBlock(env, Block.Block(items), []) == Failure(StackUnderflow)
  {
    var b := Block.Block([BlockItem.Expr(Expr.Local(0)), BlockItem.Expr(Expr.Derive(pty, Expr.AsRValue(acc))),
                          BlockItem.Expr(Expr.ExitBlock(0, 1))]);
    var init := Sim([] + [Option.None], []);
    NoLabelsCollected(b.items, |b.items|);
    ReplayStart(env, map[], b, init);
    ReplayLocal(env, map[], b, 1, init, init, 0);
    ReplayDeriveAsRValue(env, map[], b, 2, init, init, pty, acc, env.locals[0]);
    ReplayExitUnderflow(env, map[], b, 3, init, init, 0, 1);
    RunBlockFails(env, b, [], map[], StackUnderflow);
  }

  /**
   * A call through a pointer to a function type whose parameters and return
   * type unify with the call site's, with arguments that unify with the call
   * site's parameters, replaces callee and arguments by one rvalue of the
   * call site's return type.
   */
  lemma CallRule(env: Env, site: FnType, below: Stack, callee: FnType, args: Stack)
    requires !site.variadic && !callee.variadic && |args| == |site.params|
    requires UnifyAll(env.ts, callee.params, site.params, env.fuel) == Ok
    requires CheckUnify(env.ts, callee.ret, site.ret, env.fuel) == Ok
    requires UnifyArgs(env.ts, args, site.params, env.fuel) == Ok
    ensures CallEffect(env, site, below + [RV(PointerTo(Type.FnType(callee)))] + args) == Success(below + [RV(site.ret)])
  {
    var vs := below + [RV(PointerTo(Type.FnType(callee)))] + args;
    assert vs[|vs| - |site.params|..] == args;
    assert vs[..|vs| - |site.params|] == below + [RV(PointerTo(Type.FnType(callee)))];
    assert (below + [RV(PointerTo(Type.FnType(callee)))])[..|below|] == below;
  }

  /**
   * The fixed-arity check on a call compares the call-site signature with
   * itself, so a function of two parameters called through a signature of
   * one is accepted.
   */
  lemma CallArityNotChecked(env: Env, t: Type, ret: Type, tag: Abi)
    requires SelfUnifiable(env.ts, t) && SelfUnifiable(env.ts, ret)
    ensures var callee := FnTy(ret, [t, t], false, tag);
            var site := FnTy(ret, [t], false, tag);
            CallEffect(env, site, [RV(PointerTo(Type.FnType(callee))), RV(t)]) == Success([RV(ret)])
  {
    var callee := FnTy(ret, [t, t], false, tag);
    var site := FnTy(ret, [t], false, tag);
    TwoParamsUnifyWithOne(env.ts, t, env.fuel);
    OneArgUnifies(env.ts, t, env.fuel);
    UnifyReflexive(env.ts, ret, env.fuel);
    CallRule(env, site, [], callee, [RV(t)]);
    assert [] + [RV(PointerTo(Type.FnType(callee)))] + [RV(t)] == [RV(PointerTo(Type.FnType(callee))), RV(t)];
    assert [] + [RV(site.ret)] == [RV(ret)];
  }

  /** Two parameters of a self-unifiable type unify with one: `zip` stops at the shorter list. */
  lemma TwoParamsUnifyWithOne(ts: TypeState, t: Type, fuel: nat)
    requires SelfUnifiable(ts, t)
    ensures UnifyAll(ts, [t, t], [t], fuel) == Ok
  {
    UnifyReflexive(ts, t, fuel);
    assert [t, t][1..] == [t] && [t][1..] == [];
  }

  /** One rvalue argument of a self-unifiable type unifies with a parameter of that type. */
  lemma OneArgUnifies(ts: TypeState, t: Type, fuel: nat)
    requires SelfUnifiable(ts, t)
    ensures UnifyArgs(ts, [RV(t)], [t], fuel) == Ok
  {
    UnifyReflexive(ts, t, fuel);
    assert [RV(t)][1..] == [] && [t][1..] == [];
  }

  /** A label address needs a label whose stack is empty. */
  lemma LabelAddressNeedsEmptyLabel(env: Env, vs: Stack, n: u32, t: Type)
    ensures ConstEffect(env, map[n := [RV(t)]], Value.LabelAddress(n), vs) == Failure(LabelStackNotEmpty)
    ensures ConstEffect(env, map[n := []], Value.LabelAddress(n), vs) == Success((Value.LabelAddress(n), vs + [RV(PointerTo(Void))]))
  {
  }

  /** A `Null`-typed address of a known global takes the global's type and pushes a pointer to it. */
  lemma GlobalAddressFilled(env: Env, targets: Targets, vs: Stack, item: Path)
    requires item in env.ts.tys
    ensures ConstEffect(env, targets, Value.GlobalAddress(Type.Null, item), vs) ==
              Success((Value.GlobalAddress(env.ts.tys[item], item), vs + [RV(PointerTo(env.ts.tys[item]))]))
  {
  }

  // ------------------------------------------------------------- files

  /** A member pass two leaves alone: not a static, and not a function with a body. */
  predicate Untouched(m: ScopeMember) {
    !m.memberDecl.Static? && !(m.memberDecl.Function? && m.memberDecl.fnDecl.body.Some?)
  }

  /**
   * A file none of whose root members is a static or a function with a body
   * checks and is returned unchanged, whatever its types: an unresolvable
   * `Named` type in a declaration only is never looked at.
   */
  lemma DeclarationsOnlyFileChecks(file: File, fuel: nat)
    requires forall p :: p in file.root.members ==> Untouched(file.root.members[p])
    ensures FileChecks(file, fuel)
    ensures CheckedFile(file, fuel) == file
  {
    var ts := GatherTypes(file.root.members);
    forall p | p in file.root.members
      ensures CheckMember(ts, file.root.members[p], fuel) == Success(file.root.members[p])
    {
    }
    assert CheckedFile(file, fuel).root.members == file.root.members;
  }

  /** A static root member makes the whole file unsupported. */
  lemma StaticMemberUnsupported(file: File, fuel: nat, p: Path)
    requires p in file.root.members && file.root.members[p].memberDecl.Static?
    ensures !FileChecks(file, fuel)
  {
  }
}
