/**
 * The abstract interpretation the xir validator performs
 * (`tycheck_expr` and `tycheck_block` in `xir/src/validate.rs`), as pure
 * functions: the effect of each opcode on the value stack and the block-exit
 * slots, the replay of a block's items, and the result of a whole block.
 * The validating methods in `XirValidate` are proved to compute exactly these.
 */
module XirSimulate {
  import opened Wrappers
  import opened Prim
  import opened Ir
  import opened XirTypes

  type Stack = seq<StackItem>
  /** One slot per enclosing block: the stack recorded by the first exit to it, if any. */
  type Exits = seq<Option<Stack>>
  /** The stack each label of the current block declares. */
  type Targets = map<u32, Stack>

  /** What stays fixed while a function body is checked. */
  datatype Env = Env(ts: TypeState, locals: seq<Type>, fuel: nat)

  /** The mutable state of `tycheck_expr`: the exit slots and the value stack. */
  datatype Sim = Sim(exits: Exits, vstack: Stack)

  const U1: Type := Type.Scalar(IntScalar(1, false))
  const I32: Type := Type.Scalar(IntScalar(32, true))
  const U8: Type := Type.Scalar(IntScalar(8, false))

  function RV(t: Type): StackItem { StackItem(t, RValue) }
  function LV(t: Type): StackItem { StackItem(t, LValue) }

  /** A pointer to `t` with default aliasing, range and declaration metadata. */
  function PointerTo(t: Type): Type { Type.Pointer(DefaultPointer(t)) }

  /** Exit slots only ever get filled: a recorded stack is never replaced or removed. */
  ghost predicate KeepsRecordedExits(before: Exits, after: Exits) {
    |before| == |after| &&
    forall i :: 0 <= i < |before| && before[i].Some? ==> after[i] == before[i]
  }

  // ------------------------------------------------------------ helpers

  /** `vstack.pop().unwrap()`. */
  function Pop1(vs: Stack): (r: Res<(StackItem, Stack)>)
    ensures r.Success? <==> |vs| > 0
    ensures r.Success? ==> vs == r.value.1 + [r.value.0]
    ensures r.Failure? ==> r.error == StackUnderflow
  {
    if |vs| == 0 then Failure(StackUnderflow) else Success((vs[|vs| - 1], vs[..|vs| - 1]))
  }

  /** `assert_eq!(item.kind, kind)`. */
  function NeedKind(item: StackItem, kind: StackValueKind): (r: Res<()>)
    ensures r.Success? <==> item.kind == kind
    ensures r.Failure? ==> r.error == KindMismatch
  {
    Need(item.kind == kind, KindMismatch)
  }

  /** A one-bit flag (`u1`) pushed after checked arithmetic, when the behaviour is `Checked`. */
  function OverflowFlag(ov: OverflowBehaviour): (s: Stack)
    ensures ov == Checked ==> s == [RV(U1)]
    ensures ov != Checked ==> s == []
  {
    if ov == Checked then [RV(U1)] else []
  }

  // -------------------------------------------------------------- Const

  /** `GlobalAddress` back-filling: a `Null` type of an address whose item is a known global takes the global's type. */
  function FillGlobalAddress(ts: TypeState, v: Value): (r: Value)
    ensures !v.GlobalAddress? ==> r == v
    ensures v.GlobalAddress? ==> r.GlobalAddress? && r.item == v.item
    ensures v.GlobalAddress? && v.ty.Null? && v.item in ts.tys ==> r.ty == ts.tys[v.item]
    ensures v.GlobalAddress? && !(v.ty.Null? && v.item in ts.tys) ==> r == v
  {
    match v
    case GlobalAddress(ty, item) => if ty.Null? && item in ts.tys then Value.GlobalAddress(ts.tys[item], item) else v
    case _ => v
  }

  /** The type a constant pushes. */
  function ConstType(v: Value): Type
    requires !v.GenericParameter?
  {
    match v
    case Invalid(ty) => ty
    case Uninitialized(ty) => ty
    case String(_, ty) => ty
    case Integer(s, _) => Type.Scalar(s)
    case GlobalAddress(ty, _) => PointerTo(ty)
    case ByteString(_) => PointerTo(U8)
    case LabelAddress(_) => PointerTo(Void)
  }

  /**
   * A constant pushes one rvalue of its type.  Generic parameters are not
   * supported; a label address needs a declared label whose stack is empty.
   */
  function ConstEffect(env: Env, targets: Targets, v: Value, vs: Stack): (r: Res<(Value, Stack)>)
    ensures r.Success? ==> r.value.0 == FillGlobalAddress(env.ts, v) && !v.GenericParameter?
    ensures r.Success? ==> r.value.1 == vs + [RV(ConstType(r.value.0))]
    ensures r.Failure? <==> v.GenericParameter? || (v.LabelAddress? && (v.labelNum !in targets || |targets[v.labelNum]| != 0))
  {
    match v
    case GenericParameter(_) => Failure(Unsupported(GenericParameterConst))
    case LabelAddress(n) =>
      if n !in targets then Failure(UnknownTarget)
      else if |targets[n]| != 0 then Failure(LabelStackNotEmpty)
      else Success((v, vs + [RV(PointerTo(Void))]))
    case _ =>
      var v' := FillGlobalAddress(env.ts, v);
      Success((v', vs + [RV(ConstType(v'))]))
  }

  // ---------------------------------------------------------- ExitBlock

  /**
   * `ExitBlock { blk, values }` moves the top `values` items off the stack.
   * The first exit to block `blk` records them as the block's result; a later
   * exit must supply as many items, matching the recorded ones.
   */
  function ExitBlockEffect(env: Env, blk: u32, values: u16, st: Sim): (r: Res<Sim>)
    ensures r.Success? ==> blk as int < |st.exits| && values as int <= |st.vstack|
    ensures r.Success? ==> r.value.vstack == st.vstack[..|st.vstack| - values as int]
    ensures r.Success? && st.exits[blk].None? ==>
              r.value.exits == st.exits[blk := Some(st.vstack[|st.vstack| - values as int..])]
    ensures r.Success? && st.exits[blk].Some? ==>
              r.value.exits == st.exits && |st.exits[blk].value| == values as int &&
              CheckUnifyStack(env.ts, st.vstack[|st.vstack| - values as int..], st.exits[blk].value, env.fuel).Success?
    ensures r.Success? ==> KeepsRecordedExits(st.exits, r.value.exits)
    ensures blk as int >= |st.exits| ==> r == Failure(BlockIndexOutOfRange)
  {
    if blk as int >= |st.exits| then Failure(BlockIndexOutOfRange)
    else if values as int > |st.vstack| then Failure(StackUnderflow)
    else
      var pos := |st.vstack| - values as int;
      var popped := st.vstack[pos..];
      match st.exits[blk]
      case None => Success(Sim(st.exits[blk := Some(popped)], st.vstack[..pos]))
      case Some(items) =>
        if |items| != values as int then Failure(ExitArityMismatch)
        else
          var _ :- CheckUnifyStack(env.ts, popped, items, env.fuel);
          Success(Sim(st.exits, st.vstack[..pos]))
  }

  // -------------------------------------------------------- arithmetic

  predicate IsThreeWayCompare(op: BinaryOp) { op == CmpInt || op == Cmp }

  predicate IsComparison(op: BinaryOp) {
    op == CmpLt || op == CmpLe || op == CmpGt || op == CmpGe || op == CmpNe || op == CmpEq
  }

  /**
   * A binary operator pops two rvalues; the type of the top one must resolve
   * to a scalar (the other is not inspected).  A three-way comparison pushes an
   * `i32`, a relational comparison a `u1`; any other operator pushes the top
   * operand back, followed by a `u1` overflow flag when `Checked`.
   */
  function BinaryOpEffect(env: Env, op: BinaryOp, ov: OverflowBehaviour, vs: Stack): (r: Res<Stack>)
    ensures r.Success? ==> |vs| >= 2 && vs[|vs| - 1].kind == RValue && vs[|vs| - 2].kind == RValue
    ensures r.Success? ==> RefiyType(env.ts, vs[|vs| - 1].ty).Scalar?
    ensures r.Success? ==>
              r.value == vs[..|vs| - 2] +
                (if IsThreeWayCompare(op) then [RV(I32)]
                 else if IsComparison(op) then [RV(U1)]
                 else [vs[|vs| - 1]] + OverflowFlag(ov))
    ensures |vs| < 2 ==> r == Failure(StackUnderflow)
  {
    var p1 :- Pop1(vs);
    var p2 :- Pop1(p1.1);
    var val1, rest := p1.0, p2.1;
    var _ :- NeedKind(val1, RValue);
    var _ :- NeedKind(p2.0, RValue);
    if !RefiyType(env.ts, val1.ty).Scalar? then Failure(Unsupported(NonScalarBinaryOp))
    else if IsThreeWayCompare(op) then Success(rest + [RV(I32)])
    else if IsComparison(op) then Success(rest + [RV(U1)])
    else Success(rest + [val1] + OverflowFlag(ov))
  }

  /**
   * A unary operator pops one rvalue whose own type (unresolved) is a scalar.
   * Negation pushes it back plus the overflow flag when `Checked`, logical not
   * pushes a `u1`, bitwise not pushes it back.
   */
  function UnaryOpEffect(op: UnaryOp, ov: OverflowBehaviour, vs: Stack): (r: Res<Stack>)
    ensures r.Success? ==> |vs| >= 1 && vs[|vs| - 1].kind == RValue && vs[|vs| - 1].ty.Scalar?
    ensures r.Success? ==>
              r.value == vs[..|vs| - 1] +
                (match op
                 case Minus => [vs[|vs| - 1]] + OverflowFlag(ov)
                 case LogicNot => [RV(U1)]
                 case BitNot => [vs[|vs| - 1]])
  {
    var p :- Pop1(vs);
    var val, rest := p.0, p.1;
    var _ :- NeedKind(val, RValue);
    if !val.ty.Scalar? then Failure(InvalidOperand)
    else
      match op
      case Minus => Success(rest + [val] + OverflowFlag(ov))
      case LogicNot => Success(rest + [RV(U1)])
      case BitNot => Success(rest + [val])
  }

  // ------------------------------------------------------------- calls

  /** Each argument, paired with a call-site parameter, must be an rvalue whose type unifies with it. */
  function UnifyArgs(ts: TypeState, args: Stack, params: seq<Type>, fuel: nat): (r: Res<()>)
    ensures r.Success? <==>
              forall i :: 0 <= i < |args| && i < |params| ==>
                args[i].kind == RValue && CheckUnify(ts, args[i].ty, params[i], fuel).Success?
    decreases |args|
  {
    if args == [] || params == [] then Ok
    else
      var _ :- NeedKind(args[0], RValue);
      var _ :- CheckUnify(ts, args[0].ty, params[0], fuel);
      var r := UnifyArgs(ts, args[1..], params[1..], fuel);
      assert forall i :: 1 <= i < |args| && i < |params| ==> args[i] == args[1..][i - 1] && params[i] == params[1..][i - 1];
      r
  }

  /**
   * `CallFunction(fnty)` pops `|fnty.params|` arguments and then the callee,
   * an rvalue whose type resolves to a pointer to a function type.  The
   * call-site signature must not be variadic; a variadic callee must have no
   * more fixed parameters than the call site supplies.  The callee's
   * parameters and return type unify with the call site's (pairwise, up to
   * the shorter list), every argument with its parameter; the call pushes an
   * rvalue of the call site's return type.
   */
  function CallEffect(env: Env, fnty: FnType, vs: Stack): (r: Res<Stack>)
    ensures r.Success? ==> |vs| >= |fnty.params| + 1 && !fnty.variadic
    ensures r.Success? ==> r.value == vs[..|vs| - |fnty.params| - 1] + [RV(fnty.ret)]
    ensures r.Success? ==>
              var callee := vs[|vs| - |fnty.params| - 1];
              callee.kind == RValue && RefiyType(env.ts, callee.ty).Pointer? &&
              RefiyType(env.ts, RefiyType(env.ts, callee.ty).ptr.pointee).FnType?
    ensures r.Success? ==>
              var callee := vs[|vs| - |fnty.params| - 1];
              var f := RefiyType(env.ts, RefiyType(env.ts, callee.ty).ptr.pointee).fnTy;
              !(f.variadic && |f.params| > |fnty.params|) &&
              UnifyAll(env.ts, f.params, fnty.params, env.fuel).Success? &&
              CheckUnify(env.ts, f.ret, fnty.ret, env.fuel).Success?
    ensures r.Success? ==>
              forall i :: |vs| - |fnty.params| <= i < |vs| ==>
                vs[i].kind == RValue &&
                CheckUnify(env.ts, vs[i].ty, fnty.params[i - (|vs| - |fnty.params|)], env.fuel).Success?
  {
    if |vs| < |fnty.params| then Failure(StackUnderflow)
    else
      var args := vs[|vs| - |fnty.params|..];
      var p :- Pop1(vs[..|vs| - |fnty.params|]);
      var dest, rest := p.0, p.1;
      if fnty.variadic then Failure(VariadicCallSite)
      else
        var _ :- NeedKind(dest, RValue);
        var dty := RefiyType(env.ts, dest.ty);
        if !dty.Pointer? then Failure(InvalidOperand)
        else
          var fty := RefiyType(env.ts, dty.ptr.pointee);
          if !fty.FnType? then Failure(InvalidOperand)
          else
            var callee := fty.fnTy;
            if callee.variadic && |callee.params| > |fnty.params| then Failure(VariadicArityMismatch)
            else
              var _ :- UnifyAll(env.ts, callee.params, fnty.params, env.fuel);
              var _ :- CheckUnify(env.ts, callee.ret, fnty.ret, env.fuel);
              var _ :- UnifyArgs(env.ts, args, fnty.params, env.fuel);
              assert forall i :: |vs| - |fnty.params| <= i < |vs| ==> vs[i] == args[i - (|vs| - |fnty.params|)];
              Success(rest + [RV(fnty.ret)])
  }

  // ---------------------------------------------------------- branches

  /** Whether the type resolves to an integer scalar (what branches and switches test). */
  predicate IsIntegerControl(ts: TypeState, t: Type) {
    var r := RefiyType(ts, t);
    r.Scalar? && r.scalar.kind.Integer?
  }

  /**
   * `Branch { cond, target }`: a conditional branch pops an integer rvalue;
   * then the top of the stack must match the label's declared stack.  The
   * stack itself is left as it is.
   */
  function BranchEffect(env: Env, targets: Targets, cond: BranchCondition, target: u32, vs: Stack): (r: Res<Stack>)
    ensures r.Success? ==> target in targets
    ensures r.Success? && (cond == Always || cond == Never) ==> r.value == vs
    ensures r.Success? && cond != Always && cond != Never ==>
              |vs| >= 1 && r.value == vs[..|vs| - 1] && vs[|vs| - 1].kind == RValue && IsIntegerControl(env.ts, vs[|vs| - 1].ty)
    ensures r.Success? ==> CheckUnifyStack(env.ts, r.value, targets[target], env.fuel).Success?
  {
    var rest :-
      if cond == Always || cond == Never then Success(vs)
      else
        var p :- Pop1(vs);
        var _ :- NeedKind(p.0, RValue);
        if IsIntegerControl(env.ts, p.0.ty) then Success(p.1) else Failure(InvalidOperand);
    if target !in targets then Failure(UnknownTarget)
    else
      var _ :- CheckUnifyStack(env.ts, rest, targets[target], env.fuel);
      Success(rest)
  }

  /** `BranchIndirect` pops an rvalue that must unify with `*void`. */
  function BranchIndirectEffect(env: Env, vs: Stack): (r: Res<Stack>)
    ensures r.Success? ==> |vs| >= 1 && r.value == vs[..|vs| - 1] && vs[|vs| - 1].kind == RValue
    ensures r.Success? ==> CheckUnify(env.ts, vs[|vs| - 1].ty, PointerTo(Void), env.fuel).Success?
  {
    var p :- Pop1(vs);
    var _ :- NeedKind(p.0, RValue);
    var _ :- CheckUnify(env.ts, p.0.ty, PointerTo(Void), env.fuel);
    Success(p.1)
  }

  /**
   * `Switch`: pops an integer rvalue.  Each case value must be an integer
   * constant whose type unifies with the controlling value's; the first
   * case's label stack must match the stack, and every later case's label
   * stack must match the first one exactly (same length, kinds, types).
   */
  function SwitchEffect(env: Env, targets: Targets, sw: Switch, vs: Stack): (r: Res<Stack>)
    ensures r.Success? ==> |vs| >= 1 && r.value == vs[..|vs| - 1] && vs[|vs| - 1].kind == RValue
    ensures r.Success? ==> IsIntegerControl(env.ts, vs[|vs| - 1].ty) && sw.Hash?
    ensures r.Success? ==> forall i :: 0 <= i < |sw.hash.cases| ==> sw.hash.cases[i].second in targets
    ensures r.Success? ==> CaseValuesUnify(env, vs[|vs| - 1].ty, sw.hash.cases, 0)
    ensures r.Success? && |sw.hash.cases| > 0 ==>
              var base := targets[sw.hash.cases[0].second];
              CheckUnifyStack(env.ts, vs[..|vs| - 1], base, env.fuel).Success? &&
              CaseStacksMatch(env, targets, base, sw.hash.cases, 1)
  {
    var p :- Pop1(vs);
    var ctrl, rest := p.0, p.1;
    var _ :- NeedKind(ctrl, RValue);
    if !IsIntegerControl(env.ts, ctrl.ty) then Failure(InvalidOperand)
    else
      match sw
      case Linear(_) => Failure(Unsupported(LinearSwitchExpr))
      case Hash(h) =>
        var _ :- SwitchCases(env, targets, ctrl.ty, h.cases, 0, rest, Option.None);
        Success(rest)
  }

  /** Every case value from index `from` on is an integer constant whose type unifies with the controlling type. */
  predicate CaseValuesUnify(env: Env, ctrlTy: Type, cases: seq<Pair<Value, u32>>, from: nat) {
    forall j :: from <= j < |cases| ==>
      cases[j].first.Integer? && CheckUnify(env.ts, ctrlTy, Type.Scalar(cases[j].first.intTy), env.fuel).Success?
  }

  /** Every case label from index `from` on is known and its stack matches `base` exactly: same length, kinds and types. */
  predicate CaseStacksMatch(env: Env, targets: Targets, base: Stack, cases: seq<Pair<Value, u32>>, from: nat) {
    forall j :: from <= j < |cases| ==>
      cases[j].second in targets && |targets[cases[j].second]| == |base| &&
      UnifyItems(env.ts, base, targets[cases[j].second], env.fuel, SwitchTargetMismatch).Success?
  }

  /** The cases of a hash switch from index `i` on; `first` is the first case's label stack once seen. */
  function SwitchCases(env: Env, targets: Targets, ctrlTy: Type, cases: seq<Pair<Value, u32>>, i: nat,
                       vs: Stack, first: Option<Stack>): (r: Res<()>)
    ensures r.Success? ==> forall j :: i <= j < |cases| ==> cases[j].second in targets
    ensures r.Success? ==> CaseValuesUnify(env, ctrlTy, cases, i)
    ensures r.Success? && first.Some? ==> CaseStacksMatch(env, targets, first.value, cases, i)
    ensures r.Success? && first.None? && i < |cases| ==>
              var base := targets[cases[i].second];
              CheckUnifyStack(env.ts, vs, base, env.fuel).Success? && CaseStacksMatch(env, targets, base, cases, i + 1)
    decreases |cases| - i
  {
    if i >= |cases| then Ok
    else
      var c := cases[i];
      if !c.first.Integer? then Failure(InvalidOperand)
      else
        var _ :- CheckUnify(env.ts, ctrlTy, Type.Scalar(c.first.intTy), env.fuel);
        if c.second !in targets then Failure(UnknownTarget)
        else
          var tstack := targets[c.second];
          var _ :-
            match first
            case Some(stack) =>
              if |stack| != |tstack| then Failure(SwitchTargetMismatch)
              else UnifyItems(env.ts, stack, tstack, env.fuel, SwitchTargetMismatch)
            case None => CheckUnifyStack(env.ts, vs, tstack, env.fuel);
          SwitchCases(env, targets, ctrlTy, cases, i + 1, vs, if first.Some? then first else Some(tstack))
  }

  // ---------------------------------------------------- stack shuffles

  /** `Local(n)` pushes an lvalue of the `n`-th local's type. */
  function LocalEffect(env: Env, n: u32, vs: Stack): (r: Res<Stack>)
    ensures r.Success? <==> (n as int) < |env.locals|
    ensures r.Success? ==> r.value == vs + [LV(env.locals[n])]
  {
    if n as int >= |env.locals| then Failure(LocalIndexOutOfRange) else Success(vs + [LV(env.locals[n])])
  }

  /** `Pop(n)` discards the top `n` items. */
  function PopEffect(n: u32, vs: Stack): (r: Res<Stack>)
    ensures r.Success? <==> n as int <= |vs|
    ensures r.Success? ==> r.value + vs[|vs| - n as int..] == vs
  {
    if n as int > |vs| then Failure(StackUnderflow) else Success(vs[..|vs| - n as int])
  }

  /** `Dup(n)` duplicates the top `n` items as a block. */
  function DupEffect(n: u32, vs: Stack): (r: Res<Stack>)
    ensures r.Success? <==> n as int <= |vs|
    ensures r.Success? ==> r.value == vs + vs[|vs| - n as int..]
  {
    if n as int > |vs| then Failure(StackUnderflow)
    else
      var top := vs[|vs| - n as int..];
      assert vs[..|vs| - n as int] + top == vs;
      Success(vs[..|vs| - n as int] + top + top)
  }

  /**
   * `Pivot(n, m)` moves the top `m` items below the `n` items under them:
   * `.., a1..an, b1..bm` becomes `.., b1..bm, a1..an`.
   */
  function PivotEffect(n: u32, m: u32, vs: Stack): (r: Res<Stack>)
    ensures r.Success? <==> n as int + m as int <= |vs|
    ensures r.Success? ==>
              var back1 := |vs| - m as int;
              var back2 := back1 - n as int;
              r.value == vs[..back2] + vs[back1..] + vs[back2..back1]
  {
    if m as int > |vs| then Failure(StackUnderflow)
    else
      var back1 := |vs| - m as int;
      if n as int > back1 then Failure(StackUnderflow)
      else
        var back2 := back1 - n as int;
        Success(vs[..back2] + vs[back1..] + vs[back2..back1])
  }

  // ------------------------------------------------------- aggregates

  /** Each field named by the constructor, in order, takes the matching rvalue, whose type unifies with the field's. */
  function AggregateFields(ts: TypeState, ty: Type, fields: seq<string>, values: Stack, fuel: nat): (r: Res<()>)
    requires |fields| == |values|
    ensures r.Success? ==>
              forall i :: 0 <= i < |values| ==>
                values[i].kind == RValue && FieldType(ts, ty, fields[i]).Success? &&
                CheckUnify(ts, FieldType(ts, ty, fields[i]).value, values[i].ty, fuel).Success?
    decreases |fields|
  {
    if fields == [] then Ok
    else
      var _ :- NeedKind(values[0], RValue);
      var ft :- FieldType(ts, ty, fields[0]);
      var _ :- CheckUnify(ts, ft, values[0].ty, fuel);
      var r := AggregateFields(ts, ty, fields[1..], values[1..], fuel);
      assert r.Success? ==> forall i :: 1 <= i < |values| ==> values[i] == values[1..][i - 1] && fields[i] == fields[1..][i - 1];
      r
  }

  /** `Aggregate(ctor)` replaces one rvalue per named field with one rvalue of the constructed type. */
  function AggregateEffect(env: Env, ctor: AggregateCtor, vs: Stack): (r: Res<Stack>)
    ensures r.Success? ==> |ctor.fields| <= |vs|
    ensures r.Success? ==> r.value == vs[..|vs| - |ctor.fields|] + [RV(ctor.ctorTy)]
    ensures r.Success? ==>
              var back := |vs| - |ctor.fields|;
              forall i :: back <= i < |vs| ==>
                var ft := FieldType(env.ts, ctor.ctorTy, ctor.fields[i - back]);
                vs[i].kind == RValue && ft.Success? && CheckUnify(env.ts, ft.value, vs[i].ty, env.fuel).Success?
  {
    if |ctor.fields| > |vs| then Failure(StackUnderflow)
    else
      var back := |vs| - |ctor.fields|;
      var _ :- AggregateFields(env.ts, ctor.ctorTy, ctor.fields, vs[back..], env.fuel);
      assert forall i :: back <= i < |vs| ==> vs[i] == vs[back..][i - back];
      Success(vs[..back] + [RV(ctor.ctorTy)])
  }

  /** `Member(name)` turns an lvalue of an aggregate into an lvalue of its field. */
  function MemberEffect(env: Env, name: string, vs: Stack): (r: Res<Stack>)
    ensures r.Success? ==> |vs| >= 1 && vs[|vs| - 1].kind == LValue
    ensures r.Success? ==>
              FieldType(env.ts, vs[|vs| - 1].ty, name).Success? &&
              r.value == vs[..|vs| - 1] + [LV(FieldType(env.ts, vs[|vs| - 1].ty, name).value)]
  {
    var p :- Pop1(vs);
    var _ :- NeedKind(p.0, LValue);
    var ft :- FieldType(env.ts, p.0.ty, name);
    Success(p.1 + [LV(ft)])
  }

  /** `MemberIndirect(name)` turns a pointer rvalue to an aggregate into a pointer rvalue to its field. */
  function MemberIndirectEffect(env: Env, name: string, vs: Stack): (r: Res<Stack>)
    ensures r.Success? ==> |vs| >= 1 && vs[|vs| - 1].kind == RValue && vs[|vs| - 1].ty.Pointer?
    ensures r.Success? ==>
              var ft := FieldType(env.ts, vs[|vs| - 1].ty.ptr.pointee, name);
              ft.Success? && r.value == vs[..|vs| - 1] + [RV(PointerTo(ft.value))]
  {
    var p :- Pop1(vs);
    var _ :- NeedKind(p.0, RValue);
    if !p.0.ty.Pointer? then Failure(InvalidOperand)
    else
      var ft :- FieldType(env.ts, p.0.ty.ptr.pointee, name);
      Success(p.1 + [RV(PointerTo(ft))])
  }

  // ------------------------------------------------------ assignments

  /** `Assign` pops an rvalue and the lvalue below it; the rvalue's type must unify with the lvalue's. */
  function AssignEffect(env: Env, vs: Stack): (r: Res<Stack>)
    ensures r.Success? ==> |vs| >= 2 && r.value == vs[..|vs| - 2]
    ensures r.Success? ==> vs[|vs| - 1].kind == RValue && vs[|vs| - 2].kind == LValue
    ensures r.Success? ==> CheckUnify(env.ts, vs[|vs| - 1].ty, vs[|vs| - 2].ty, env.fuel).Success?
  {
    var p1 :- Pop1(vs);
    var p2 :- Pop1(p1.1);
    var _ :- NeedKind(p1.0, RValue);
    var _ :- NeedKind(p2.0, LValue);
    var _ :- CheckUnify(env.ts, p1.0.ty, p2.0.ty, env.fuel);
    Success(p2.1)
  }

  /** `AsRValue` reads an lvalue: same type, rvalue kind. */
  function AsRValueEffect(vs: Stack): (r: Res<Stack>)
    ensures r.Success? <==> |vs| >= 1 && vs[|vs| - 1].kind == LValue
    ensures r.Success? ==> r.value == vs[..|vs| - 1] + [RV(vs[|vs| - 1].ty)]
  {
    var p :- Pop1(vs);
    var _ :- NeedKind(p.0, LValue);
    Success(p.1 + [RV(p.0.ty)])
  }

  /**
   * `CompoundAssign(op, v, _)` pops an rvalue and an lvalue whose types unify;
   * for a scalar lvalue it pushes only the overflow flag (when `Checked`).
   */
  function CompoundAssignEffect(env: Env, ov: OverflowBehaviour, vs: Stack): (r: Res<Stack>)
    ensures r.Success? ==> |vs| >= 2 && vs[|vs| - 1].kind == RValue && vs[|vs| - 2].kind == LValue
    ensures r.Success? ==> CheckUnify(env.ts, vs[|vs| - 2].ty, vs[|vs| - 1].ty, env.fuel).Success?
    ensures r.Success? ==> RefiyType(env.ts, vs[|vs| - 2].ty).Scalar?
    ensures r.Success? ==> r.value == vs[..|vs| - 2] + OverflowFlag(ov)
  {
    var p1 :- Pop1(vs);
    var p2 :- Pop1(p1.1);
    var _ :- NeedKind(p1.0, RValue);
    var _ :- NeedKind(p2.0, LValue);
    var _ :- CheckUnify(env.ts, p2.0.ty, p1.0.ty, env.fuel);
    if RefiyType(env.ts, p2.0.ty).Scalar? then Success(p2.1 + OverflowFlag(ov))
    else Failure(Unsupported(NonScalarCompoundAssign))
  }

  /**
   * Operators on lvalues.  `Xchg` consumes two unifying lvalues.  The compare
   * exchanges consume a destination lvalue, a swap lvalue and a control
   * rvalue whose types unify with the destination's, and push a `u1`.  The
   * increments take a scalar lvalue: the prefix forms push it back (with an
   * overflow flag when `Checked`); the postfix forms push it back when not
   * checked, and its value as an rvalue plus the flag when `Checked`.
   */
  function LValueOpEffect(env: Env, op: LValueOp, ov: OverflowBehaviour, vs: Stack): (r: Res<Stack>)
    ensures r.Success? && op == Xchg ==>
              |vs| >= 2 && r.value == vs[..|vs| - 2] &&
              vs[|vs| - 1].kind == LValue && vs[|vs| - 2].kind == LValue &&
              CheckUnify(env.ts, vs[|vs| - 1].ty, vs[|vs| - 2].ty, env.fuel).Success?
    ensures r.Success? && (op == Cmpxchg || op == Wcmpxchg) ==>
              |vs| >= 3 && r.value == vs[..|vs| - 3] + [RV(U1)] &&
              vs[|vs| - 3].kind == LValue && vs[|vs| - 2].kind == LValue && vs[|vs| - 1].kind == RValue &&
              CheckUnify(env.ts, vs[|vs| - 3].ty, vs[|vs| - 1].ty, env.fuel).Success? &&
              CheckUnify(env.ts, vs[|vs| - 3].ty, vs[|vs| - 2].ty, env.fuel).Success?
    ensures r.Success? && (op == PreInc || op == PreDec) ==>
              |vs| >= 1 && vs[|vs| - 1].kind == LValue &&
              r.value == vs + OverflowFlag(ov)
    ensures r.Success? && (op == PostInc || op == PostDec) ==>
              |vs| >= 1 && vs[|vs| - 1].kind == LValue &&
              r.value == if ov == Checked then vs[..|vs| - 1] + [RV(vs[|vs| - 1].ty), RV(U1)] else vs
    ensures r.Success? && op != Xchg && op != Cmpxchg && op != Wcmpxchg ==>
              RefiyType(env.ts, vs[|vs| - 1].ty).Scalar?
  {
    match op
    case Xchg =>
      var p1 :- Pop1(vs);
      var p2 :- Pop1(p1.1);
      var _ :- NeedKind(p1.0, LValue);
      var _ :- NeedKind(p2.0, LValue);
      var _ :- CheckUnify(env.ts, p1.0.ty, p2.0.ty, env.fuel);
      Success(p2.1)
    case Cmpxchg => CompareExchange(env, vs)
    case Wcmpxchg => CompareExchange(env, vs)
    case PreInc => PreStep(env, ov, vs)
    case PreDec => PreStep(env, ov, vs)
    case PostInc => PostStep(env, ov, vs)
    case PostDec => PostStep(env, ov, vs)
  }

  function CompareExchange(env: Env, vs: Stack): (r: Res<Stack>)
    ensures r.Success? ==> |vs| >= 3 && r.value == vs[..|vs| - 3] + [RV(U1)]
    ensures r.Success? ==> vs[|vs| - 3].kind == LValue && vs[|vs| - 2].kind == LValue && vs[|vs| - 1].kind == RValue
    ensures r.Success? ==> CheckUnify(env.ts, vs[|vs| - 3].ty, vs[|vs| - 1].ty, env.fuel).Success?
    ensures r.Success? ==> CheckUnify(env.ts, vs[|vs| - 3].ty, vs[|vs| - 2].ty, env.fuel).Success?
  {
    var pc :- Pop1(vs);
    var ps :- Pop1(pc.1);
    var pd :- Pop1(ps.1);
    var control, swap, dest := pc.0, ps.0, pd.0;
    var _ :- NeedKind(dest, LValue);
    var _ :- NeedKind(swap, LValue);
    var _ :- NeedKind(control, RValue);
    var _ :- CheckUnify(env.ts, dest.ty, control.ty, env.fuel);
    var _ :- CheckUnify(env.ts, dest.ty, swap.ty, env.fuel);
    Success(pd.1 + [RV(U1)])
  }

  function PreStep(env: Env, ov: OverflowBehaviour, vs: Stack): (r: Res<Stack>)
    ensures r.Success? ==> |vs| >= 1 && vs[|vs| - 1].kind == LValue && RefiyType(env.ts, vs[|vs| - 1].ty).Scalar?
    ensures r.Success? ==> r.value == vs + OverflowFlag(ov)
  {
    var p :- Pop1(vs);
    var _ :- NeedKind(p.0, LValue);
    if !RefiyType(env.ts, p.0.ty).Scalar? then Failure(InvalidOperand)
    else Success(p.1 + [p.0] + OverflowFlag(ov))
  }

  function PostStep(env: Env, ov: OverflowBehaviour, vs: Stack): (r: Res<Stack>)
    ensures r.Success? ==> |vs| >= 1 && vs[|vs| - 1].kind == LValue && RefiyType(env.ts, vs[|vs| - 1].ty).Scalar?
    ensures r.Success? ==> r.value == if ov == Checked then vs[..|vs| - 1] + [RV(vs[|vs| - 1].ty), RV(U1)] else vs
  {
    var p :- Pop1(vs);
    var _ :- NeedKind(p.0, LValue);
    if !RefiyType(env.ts, p.0.ty).Scalar? then Failure(InvalidOperand)
    else if ov == Checked then Success(p.1 + [RV(p.0.ty), RV(U1)])
    else Success(p.1 + [p.0])
  }

  // --------------------------------------------------------- pointers

  /** `Indirect` turns a pointer rvalue (by its own type) into an lvalue of the pointee. */
  function IndirectEffect(vs: Stack): (r: Res<Stack>)
    ensures r.Success? <==> |vs| >= 1 && vs[|vs| - 1].kind == RValue && vs[|vs| - 1].ty.Pointer?
    ensures r.Success? ==> r.value == vs[..|vs| - 1] + [LV(vs[|vs| - 1].ty.ptr.pointee)]
  {
    var p :- Pop1(vs);
    var _ :- NeedKind(p.0, RValue);
    if !p.0.ty.Pointer? then Failure(InvalidOperand)
    else Success(p.1 + [LV(p.0.ty.ptr.pointee)])
  }

  /** `AddrOf` turns an lvalue into a pointer to its type; the item keeps the lvalue kind. */
  function AddrOfEffect(vs: Stack): (r: Res<Stack>)
    ensures r.Success? <==> |vs| >= 1 && vs[|vs| - 1].kind == LValue
    ensures r.Success? ==> r.value == vs[..|vs| - 1] + [LV(PointerTo(vs[|vs| - 1].ty))]
  {
    var p :- Pop1(vs);
    var _ :- NeedKind(p.0, LValue);
    Success(p.1 + [LV(PointerTo(p.0.ty))])
  }

  /**
   * What `Derive(pty, _)` does after its operand: pops a pointer rvalue (by
   * its own type) whose pointee unifies with `pty`'s.  The pointer is not
   * pushed back.
   */
  function DeriveTail(env: Env, pty: PointerType, vs: Stack): (r: Res<Stack>)
    ensures r.Success? ==> |vs| >= 1 && r.value == vs[..|vs| - 1]
    ensures r.Success? ==>
              vs[|vs| - 1].kind == RValue && vs[|vs| - 1].ty.Pointer? &&
              CheckUnify(env.ts, pty.pointee, vs[|vs| - 1].ty.ptr.pointee, env.fuel).Success?
  {
    var p :- Pop1(vs);
    var _ :- NeedKind(p.0, RValue);
    if !p.0.ty.Pointer? then Failure(InvalidOperand)
    else
      var _ :- CheckUnify(env.ts, pty.pointee, p.0.ty.ptr.pointee, env.fuel);
      Success(p.1)
  }

  // ----------------------------------------------------- one opcode

  /** The opcodes whose effect is confined to the value stack. */
  function StackEffect(env: Env, targets: Targets, e: Expr, vs: Stack): Res<Stack>
    requires !e.Const? && !e.ExitBlock? && !e.Derive? && !e.Block?
  {
    match e
    case Null => Success(vs)
    case Sequence(_) => Success(vs)
    case Fence(_) => Success(vs)
    case BinaryOp(op, ov) => BinaryOpEffect(env, op, ov, vs)
    case UnaryOp(op, ov) => UnaryOpEffect(op, ov, vs)
    case Tailcall(_) => Failure(Unsupported(TailcallExpr))
    case CallFunction(fnty) => CallEffect(env, fnty, vs)
    case Branch(cond, target) => BranchEffect(env, targets, cond, target, vs)
    case BranchIndirect => BranchIndirectEffect(env, vs)
    case Convert(_, _) => Failure(Unsupported(ConvertExpr))
    case Local(n) => LocalEffect(env, n, vs)
    case Pop(n) => PopEffect(n, vs)
    case Dup(n) => DupEffect(n, vs)
    case Pivot(n, m) => PivotEffect(n, m, vs)
    case Aggregate(ctor) => AggregateEffect(env, ctor, vs)
    case Member(name) => MemberEffect(env, name, vs)
    case MemberIndirect(name) => MemberIndirectEffect(env, name, vs)
    case Assign(_) => AssignEffect(env, vs)
    case AsRValue(_) => AsRValueEffect(vs)
    case CompoundAssign(_, ov, _) => CompoundAssignEffect(env, ov, vs)
    case LValueOp(op, ov, _) => LValueOpEffect(env, op, ov, vs)
    case Indirect => IndirectEffect(vs)
    case AddrOf => AddrOfEffect(vs)
    case Switch(sw) => SwitchEffect(env, targets, sw, vs)
  }

  /**
   * `tycheck_expr` on every opcode except nested blocks and `Derive` (whose
   * operand is itself an expression): the rewritten expression (only a
   * `GlobalAddress` constant can change) and the new state.
   */
  function LeafStep(env: Env, targets: Targets, e: Expr, st: Sim): (r: Res<(Expr, Sim)>)
    requires !e.Derive? && !e.Block?
    ensures r.Success? ==> KeepsRecordedExits(st.exits, r.value.1.exits)
    ensures r.Success? && !e.ExitBlock? ==> r.value.1.exits == st.exits
    ensures r.Success? && !e.Const? ==> r.value.0 == e
  {
    if e.Const? then
      var c :- ConstEffect(env, targets, e.v, st.vstack);
      Success((Expr.Const(c.0), Sim(st.exits, c.1)))
    else if e.ExitBlock? then
      var st' :- ExitBlockEffect(env, e.blk, e.values, st);
      Success((e, st'))
    else
      var vs :- StackEffect(env, targets, e, st.vstack);
      Success((e, Sim(st.exits, vs)))
  }

  /** `tycheck_expr`: one expression's effect on the state, recursing into `Derive` operands and nested blocks. */
  function Step(env: Env, targets: Targets, e: Expr, st: Sim): (r: Res<(Expr, Sim)>)
    ensures r.Success? ==> KeepsRecordedExits(st.exits, r.value.1.exits)
    decreases e, 2, 0
  {
    match e
    case Derive(pty, inner) =>
      var s :- Step(env, targets, inner, st);
      var vs :- DeriveTail(env, pty, s.1.vstack);
      Success((Expr.Derive(pty, s.0), Sim(s.1.exits, vs)))
    case Block(n, b) =>
      if n as int != |st.exits| then Failure(NestingMismatch)
      else
        var res :- RunBlock(env, b, st.exits);
        Success((Expr.Block(n, res.0), Sim(res.2, st.vstack + res.1)))
    case _ => LeafStep(env, targets, e, st)
  }

  // ------------------------------------------------------------ blocks

  /** The labels among the first `k` items and their stacks; a label declared twice is an error. */
  function CollectTargets(items: seq<BlockItem>, k: nat): (r: Res<Targets>)
    requires k <= |items|
    ensures r.Failure? ==> r.error == DuplicateTarget
  {
    if k == 0 then Success(map[])
    else
      var m :- CollectTargets(items, k - 1);
      match items[k - 1]
      case Target(num, stack) => if num in m then Failure(DuplicateTarget) else Success(m[num := stack])
      case Expr(_) => Success(m)
  }

  /**
   * The state after the first `k` items of `b`, from `init`, together with
   * the rewritten items.  An expression steps the state; a label first
   * checks the fall-through stack against its declared stack (the validator
   * never treats an expression as diverging) and then replaces the stack by
   * the declared one.
   */
  function Replay(env: Env, targets: Targets, b: Block, k: nat, init: Sim): (r: Res<(seq<BlockItem>, Sim)>)
    requires k <= |b.items|
    ensures r.Success? ==> |r.value.0| == k && KeepsRecordedExits(init.exits, r.value.1.exits)
    decreases b, 0, k
  {
    if k == 0 then Success(([], init))
    else
      var prev :- Replay(env, targets, b, k - 1, init);
      match b.items[k - 1]
      case Expr(e) =>
        var s :- Step(env, targets, e, prev.1);
        Success((prev.0 + [BlockItem.Expr(s.0)], s.1))
      case Target(num, stack) =>
        var _ :- CheckUnifyStack(env.ts, prev.1.vstack, stack, env.fuel);
        Success((prev.0 + [b.items[k - 1]], Sim(prev.1.exits, stack)))
  }

  /**
   * `tycheck_block`: opens a new exit slot, collects the labels, replays the
   * items and closes the slot.  The result is the stack recorded by the
   * first exit to this block, or the empty stack when nothing exited it.
   */
  function RunBlock(env: Env, b: Block, exits: Exits): (r: Res<(Block, Stack, Exits)>)
    ensures r.Success? ==> KeepsRecordedExits(exits, r.value.2)
    decreases b, 1, 0
  {
    var targets :- CollectTargets(b.items, |b.items|);
    var res :- Replay(env, targets, b, |b.items|, Sim(exits + [Option.None], []));
    var fin := res.1.exits;
    Success((Block.Block(res.0), fin[|fin| - 1].GetOr([]), fin[..|fin| - 1]))
  }
}
