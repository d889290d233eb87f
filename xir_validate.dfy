/**
 * The validator's drivers, `tycheck_expr`, `tycheck_block`,
 * `tycheck_function` and `tycheck` of `xir/src/validate.rs`, as methods
 * that walk the IR with loops and local state.  Each is proved to compute
 * exactly what the functions of `XirSimulate` specify.
 */
module XirValidate {
  import opened Wrappers
  import opened Prim
  import opened Ir
  import opened XirTypes
  import opened XirSimulate

  // ------------------------------------------------- function and file

  /** The type pass one records for a root member, when it records one. */
  function GlobalType(m: MemberDeclaration): Option<Type> {
    match m
    case Function(fd) => Some(Type.FnType(fd.ty))
    case Static(sd) => Some(sd.staticTy)
    case _ => Option.None
  }

  /** The aggregate entry pass one records for a root member: a definition, or `None` for an opaque one. */
  function AggregateEntry(m: MemberDeclaration): Option<Option<AggregateDefinition>> {
    match m
    case AggregateDefinition(defn) => Some(Some(defn))
    case OpaqueAggregate(_) => Some(Option.None)
    case _ => Option.None
  }

  /**
   * Pass one of `tycheck`: the tables built from the root members.  Functions
   * and statics get a global type, aggregate definitions and opaque
   * aggregates an aggregate entry; nothing else is recorded.
   */
  function GatherTypes(members: map<Path, ScopeMember>): (ts: TypeState)
    ensures forall p :: p in ts.tys <==> p in members && GlobalType(members[p].memberDecl).Some?
    ensures forall p :: p in ts.tys ==> ts.tys[p] == GlobalType(members[p].memberDecl).value
    ensures forall p :: p in ts.aggregate <==> p in members && AggregateEntry(members[p].memberDecl).Some?
    ensures forall p :: p in ts.aggregate ==> ts.aggregate[p] == AggregateEntry(members[p].memberDecl).value
  {
    GatherOver(members, members.Keys)
  }

  /** The tables built from the members whose paths are in `done`. */
  function GatherOver(members: map<Path, ScopeMember>, done: set<Path>): TypeState {
    TypeState(
      map p | p in done && p in members && GlobalType(members[p].memberDecl).Some? :: GlobalType(members[p].memberDecl).value,
      map p | p in done && p in members && AggregateEntry(members[p].memberDecl).Some? :: AggregateEntry(members[p].memberDecl).value)
  }

  /**
   * `tycheck_function`: a declaration with a body is checked with the
   * parameters followed by the body's locals as locals, and no enclosing
   * exit slot.  A `Void` return type needs an empty result, any other
   * exactly one item unifying with the return type.
   */
  function CheckFunction(ts: TypeState, decl: FunctionDeclaration, fuel: nat): (r: Res<FunctionDeclaration>)
    ensures decl.body.None? ==> r == Success(decl)
    ensures r.Success? ==> r.value.ty == decl.ty && r.value.body.Some? == decl.body.Some?
    ensures r.Success? && decl.body.Some? ==>
              var env := Env(ts, decl.ty.params + decl.body.value.locals, fuel);
              var res := RunBlock(env, decl.body.value.block, []);
              res.Success? &&
              r.value.body.value == FunctionBody(decl.body.value.locals, res.value.0) &&
              (if decl.ty.ret.Void? then res.value.1 == []
               else |res.value.1| == 1 && CheckUnify(ts, res.value.1[0].ty, decl.ty.ret, fuel).Success?)
  {
    match decl.body
    case None => Success(decl)
    case Some(body) =>
      var env := Env(ts, decl.ty.params + body.locals, fuel);
      var res :- RunBlock(env, body.block, []);
      var ret := res.1;
      var _ :-
        if decl.ty.ret.Void? then Need(|ret| == 0, ReturnArityMismatch)
        else if |ret| != 1 then Failure(ReturnArityMismatch)
        else CheckUnify(ts, ret[0].ty, decl.ty.ret, fuel);
      Success(FunctionDeclaration(decl.ty, Some(FunctionBody(body.locals, res.0))))
  }

  /** Pass two of `tycheck` on one root member: function bodies are checked, statics are not supported. */
  function CheckMember(ts: TypeState, m: ScopeMember, fuel: nat): (r: Res<ScopeMember>)
    ensures m.memberDecl.Static? ==> r == Failure(Unsupported(StaticMember))
    ensures !m.memberDecl.Static? && !m.memberDecl.Function? ==> r == Success(m)
    ensures r.Success? ==> r.value.annotations == m.annotations && r.value.vis == m.vis
  {
    match m.memberDecl
    case Function(fd) =>
      var fd' :- CheckFunction(ts, fd, fuel);
      Success(m.(memberDecl := MemberDeclaration.Function(fd')))
    case Static(_) => Failure(Unsupported(StaticMember))
    case _ => Success(m)
  }

  /** Whether every root member passes pass two. */
  ghost predicate FileChecks(file: File, fuel: nat) {
    var ts := GatherTypes(file.root.members);
    forall p :: p in file.root.members ==> CheckMember(ts, file.root.members[p], fuel).Success?
  }

  /** The file after a successful `tycheck`: every root member replaced by its checked form. */
  function CheckedFile(file: File, fuel: nat): File
    requires FileChecks(file, fuel)
  {
    var ts := GatherTypes(file.root.members);
    File(file.target, Scope.Scope(file.root.annotations,
      map p | p in file.root.members :: CheckMember(ts, file.root.members[p], fuel).value))
  }

  // ---------------------------------------------------------- methods

  /** Moves the top `values` items into exit slot `blk`, or checks them against what is recorded there. */
  method ExitBlock(env: Env, blk: u32, values: u16, exits: Exits, vstack: Stack) returns (r: Res<Sim>)
    ensures r == ExitBlockEffect(env, blk, values, Sim(exits, vstack))
  {
    if blk as int >= |exits| {
      return Failure(BlockIndexOutOfRange);
    }
    if values as int > |vstack| {
      return Failure(StackUnderflow);
    }
    var pos := |vstack| - values as int;
    var popped := vstack[pos..];
    var slot := exits[blk];
    if slot.None? {
      r := Success(Sim(exits[blk := Some(popped)], vstack[..pos]));
    } else if |slot.value| != values as int {
      r := Failure(ExitArityMismatch);
    } else {
      var u := CheckUnifyStack(env.ts, popped, slot.value, env.fuel);
      if u.Failure? {
        return Failure(u.error);
      }
      r := Success(Sim(exits, vstack[..pos]));
    }
  }

  /** Unifies `xs` and `ys` pairwise up to the shorter one, stopping at the first failure. */
  method ZipUnify(ts: TypeState, xs: seq<Type>, ys: seq<Type>, fuel: nat) returns (r: Res<()>)
    ensures r == UnifyAll(ts, xs, ys, fuel)
  {
    var i := 0;
    while i < |xs| && i < |ys|
      invariant 0 <= i <= |xs| && i <= |ys|
      invariant UnifyAll(ts, xs, ys, fuel) == UnifyAll(ts, xs[i..], ys[i..], fuel)
    {
      assert xs[i..][1..] == xs[i + 1..] && ys[i..][1..] == ys[i + 1..];
      var u := CheckUnify(ts, xs[i], ys[i], fuel);
      if u.Failure? {
        return Failure(u.error);
      }
      i := i + 1;
    }
    return Ok;
  }

  /** The `CallFunction` arm. */
  method CallFunction(env: Env, fnty: FnType, vstack: Stack) returns (r: Res<Stack>)
    ensures r == CallEffect(env, fnty, vstack)
  {
    if |vstack| < |fnty.params| {
      return Failure(StackUnderflow);
    }
    var args := vstack[|vstack| - |fnty.params|..];
    var below := vstack[..|vstack| - |fnty.params|];
    if |below| == 0 {
      return Failure(StackUnderflow);
    }
    var dest, rest := below[|below| - 1], below[..|below| - 1];
    if fnty.variadic {
      return Failure(VariadicCallSite);
    }
    if dest.kind != RValue {
      return Failure(KindMismatch);
    }
    var dty := RefiyType(env.ts, dest.ty);
    if !dty.Pointer? {
      return Failure(InvalidOperand);
    }
    var fty := RefiyType(env.ts, dty.ptr.pointee);
    if !fty.FnType? {
      return Failure(InvalidOperand);
    }
    var callee := fty.fnTy;
    if callee.variadic && |callee.params| > |fnty.params| {
      return Failure(VariadicArityMismatch);
    }
    var u := ZipUnify(env.ts, callee.params, fnty.params, env.fuel);
    if u.Failure? {
      return Failure(u.error);
    }
    u := CheckUnify(env.ts, callee.ret, fnty.ret, env.fuel);
    if u.Failure? {
      return Failure(u.error);
    }
    var i := 0;
    while i < |args| && i < |fnty.params|
      invariant 0 <= i <= |args| && i <= |fnty.params|
      invariant UnifyArgs(env.ts, args, fnty.params, env.fuel) == UnifyArgs(env.ts, args[i..], fnty.params[i..], env.fuel)
    {
      assert args[i..][1..] == args[i + 1..] && fnty.params[i..][1..] == fnty.params[i + 1..];
      if args[i].kind != RValue {
        return Failure(KindMismatch);
      }
      u := CheckUnify(env.ts, args[i].ty, fnty.params[i], env.fuel);
      if u.Failure? {
        return Failure(u.error);
      }
      i := i + 1;
    }
    r := Success(rest + [RV(fnty.ret)]);
  }

  /** The `Aggregate` arm: one field per constructor name, in order. */
  method Aggregate(env: Env, ctor: AggregateCtor, vstack: Stack) returns (r: Res<Stack>)
    ensures r == AggregateEffect(env, ctor, vstack)
  {
    var fields := ctor.fields;
    if |fields| > |vstack| {
      return Failure(StackUnderflow);
    }
    var back := |vstack| - |fields|;
    var values := vstack[back..];
    var i := 0;
    while i < |fields|
      invariant 0 <= i <= |fields|
      invariant AggregateFields(env.ts, ctor.ctorTy, fields, values, env.fuel) ==
                AggregateFields(env.ts, ctor.ctorTy, fields[i..], values[i..], env.fuel)
    {
      assert fields[i..][1..] == fields[i + 1..] && values[i..][1..] == values[i + 1..];
      if values[i].kind != RValue {
        return Failure(KindMismatch);
      }
      var ft := FieldType(env.ts, ctor.ctorTy, fields[i]);
      if ft.Failure? {
        return Failure(ft.error);
      }
      var u := CheckUnify(env.ts, ft.value, values[i].ty, env.fuel);
      if u.Failure? {
        return Failure(u.error);
      }
      i := i + 1;
    }
    r := Success(vstack[..back] + [RV(ctor.ctorTy)]);
  }

  /** The `Switch` arm: the controlling value, then every case of a hash switch in order. */
  method Switch(env: Env, targets: Targets, sw: Switch, vstack: Stack) returns (r: Res<Stack>)
    ensures r == SwitchEffect(env, targets, sw, vstack)
  {
    if |vstack| == 0 {
      return Failure(StackUnderflow);
    }
    var ctrl, rest := vstack[|vstack| - 1], vstack[..|vstack| - 1];
    if ctrl.kind != RValue {
      return Failure(KindMismatch);
    }
    if !IsIntegerControl(env.ts, ctrl.ty) {
      return Failure(InvalidOperand);
    }
    if sw.Linear? {
      return Failure(Unsupported(LinearSwitchExpr));
    }
    var cases := sw.hash.cases;
    var first: Option<Stack> := Option.None;
    var i := 0;
    while i < |cases|
      invariant 0 <= i <= |cases|
      invariant SwitchCases(env, targets, ctrl.ty, cases, 0, rest, Option.None) ==
                SwitchCases(env, targets, ctrl.ty, cases, i, rest, first)
      decreases |cases| - i
    {
      var c := cases[i];
      if !c.first.Integer? {
        return Failure(InvalidOperand);
      }
      var u := CheckUnify(env.ts, ctrl.ty, Type.Scalar(c.first.intTy), env.fuel);
      if u.Failure? {
        return Failure(u.error);
      }
      if c.second !in targets {
        return Failure(UnknownTarget);
      }
      var tstack := targets[c.second];
      if first.Some? {
        if |first.value| != |tstack| {
          return Failure(SwitchTargetMismatch);
        }
        u := UnifyItems(env.ts, first.value, tstack, env.fuel, SwitchTargetMismatch);
      } else {
        u := CheckUnifyStack(env.ts, rest, tstack, env.fuel);
        first := Some(tstack);
      }
      if u.Failure? {
        return Failure(u.error);
      }
      i := i + 1;
    }
    r := Success(rest);
  }

  /**
   * `tycheck_expr`: checks one expression against the exit slots and the
   * value stack and returns its rewritten form and the new state, plus the
   * `diverged` flag, which is always `false`.
   */
  method TycheckExpr(env: Env, targets: Targets, e: Expr, exits: Exits, vstack: Stack)
      returns (r: Res<(Expr, Sim)>, diverged: bool)
    ensures r == Step(env, targets, e, Sim(exits, vstack))
    ensures !diverged
    decreases e, 2, 0
  {
    diverged := false;
    if e.Derive? {
      r := TycheckDerive(env, targets, e.derived, e.derivedFrom, exits, vstack);
    } else if e.Block? {
      r := TycheckNested(env, targets, e.n, e.block, exits, vstack);
    } else {
      r := TycheckLeaf(env, targets, e, exits, vstack);
    }
  }

  /** The `Block` arm: the nested block is checked with one more exit slot open, and its result pushed. */
  method TycheckNested(env: Env, targets: Targets, n: u32, b: Block, exits: Exits, vstack: Stack) returns (r: Res<(Expr, Sim)>)
    ensures r == Step(env, targets, Expr.Block(n, b), Sim(exits, vstack))
    decreases Expr.Block(n, b), 1, 0
  {
    if n as int != |exits| {
      return Failure(NestingMismatch);
    }
    var res := TycheckBlock(env, b, exits);
    if res.Failure? {
      return Failure(res.error);
    }
    r := Success((Expr.Block(n, res.value.0), Sim(res.value.2, vstack + res.value.1)));
  }

  /** The `Derive` arm: the operand is checked first, then the pointer it leaves is consumed. */
  method TycheckDerive(env: Env, targets: Targets, pty: PointerType, inner: Expr, exits: Exits, vstack: Stack)
      returns (r: Res<(Expr, Sim)>)
    ensures r == Step(env, targets, Expr.Derive(pty, inner), Sim(exits, vstack))
    decreases Expr.Derive(pty, inner), 1, 0
  {
    var s, _ := TycheckExpr(env, targets, inner, exits, vstack);
    if s.Failure? {
      return Failure(s.error);
    }
    var vs := DeriveTail(env, pty, s.value.1.vstack);
    if vs.Failure? {
      return Failure(vs.error);
    }
    r := Success((Expr.Derive(pty, s.value.0), Sim(s.value.1.exits, vs.value)));
  }

  /** `tycheck_expr` on every opcode but `Derive` and `Block`; the opcodes with loops of their own run them. */
  method TycheckLeaf(env: Env, targets: Targets, e: Expr, exits: Exits, vstack: Stack) returns (r: Res<(Expr, Sim)>)
    requires !e.Derive? && !e.Block?
    ensures r == LeafStep(env, targets, e, Sim(exits, vstack))
  {
    match e {
      case ExitBlock(blk, values) =>
        var s := ExitBlock(env, blk, values, exits, vstack);
        if s.Failure? {
          return Failure(s.error);
        }
        r := Success((e, s.value));
      case CallFunction(fnty) =>
        var vs := CallFunction(env, fnty, vstack);
        if vs.Failure? {
          return Failure(vs.error);
        }
        r := Success((e, Sim(exits, vs.value)));
      case Aggregate(ctor) =>
        var vs := Aggregate(env, ctor, vstack);
        if vs.Failure? {
          return Failure(vs.error);
        }
        r := Success((e, Sim(exits, vs.value)));
      case Switch(sw) =>
        var vs := Switch(env, targets, sw, vstack);
        if vs.Failure? {
          return Failure(vs.error);
        }
        r := Success((e, Sim(exits, vs.value)));
      case _ =>
        // The loop-free opcodes are taken from their effect functions as they stand.
        r := LeafStep(env, targets, e, Sim(exits, vstack));
    }
  }

  /** The first loop of `tycheck_block`: every label of the block and its stack, rejecting a label declared twice. */
  method CollectLabels(items: seq<BlockItem>) returns (r: Res<Targets>)
    ensures r == CollectTargets(items, |items|)
  {
    var targets: Targets := map[];
    var i := 0;
    while i < |items|
      invariant 0 <= i <= |items|
      invariant CollectTargets(items, i) == Success(targets)
    {
      if items[i].Target? {
        if items[i].num in targets {
          CollectFailurePersists(items, i + 1, |items|);
          return Failure(DuplicateTarget);
        }
        targets := targets[items[i].num := items[i].stack];
      }
      i := i + 1;
    }
    r := Success(targets);
  }

  /**
   * The second loop of `tycheck_block`: each expression is checked in turn;
   * at each label the live stack is checked against the label's stack unless
   * the previous expression diverged (it never does), and then replaced by
   * the label's stack.
   */
  method CheckItems(env: Env, targets: Targets, b: Block, init: Sim) returns (r: Res<(seq<BlockItem>, Sim)>)
    ensures r == Replay(env, targets, b, |b.items|, init)
    decreases b, 0, 1
  {
    var done: seq<BlockItem>, sim := [], init;
    var diverged := false;
    var i := 0;
    while i < |b.items|
      invariant 0 <= i <= |b.items|
      invariant Replay(env, targets, b, i, init) == Success((done, sim))
      invariant !diverged
    {
      var s;
      s, diverged := CheckItem(env, targets, b, i, init, done, sim, diverged);
      if s.Failure? {
        ReplayFailurePersists(env, targets, b, i + 1, |b.items|, init);
        return Failure(s.error);
      }
      done, sim := s.value.0, s.value.1;
      i := i + 1;
    }
    r := Success((done, sim));
  }

  /** One round of the loop above, on item `i`, given the outcome of the rounds before it. */
  method CheckItem(env: Env, targets: Targets, b: Block, i: nat, init: Sim, done: seq<BlockItem>, sim: Sim, diverged: bool)
      returns (r: Res<(seq<BlockItem>, Sim)>, diverged': bool)
    requires i < |b.items| && !diverged
    requires Replay(env, targets, b, i, init) == Success((done, sim))
    ensures r == Replay(env, targets, b, i + 1, init) && !diverged'
    decreases b, 0, 0
  {
    match b.items[i] {
      case Expr(e) =>
        var s;
        s, diverged' := TycheckExpr(env, targets, e, sim.exits, sim.vstack);
        if s.Failure? {
          return Failure(s.error), diverged';
        }
        r := Success((done + [BlockItem.Expr(s.value.0)], s.value.1));
      case Target(_, stack) =>
        if !diverged {
          var u := CheckUnifyStack(env.ts, sim.vstack, stack, env.fuel);
          if u.Failure? {
            return Failure(u.error), false;
          }
        }
        r, diverged' := Success((done + [b.items[i]], Sim(sim.exits, stack))), false;
    }
  }

  /**
   * `tycheck_block`: opens an exit slot, collects the labels, checks the
   * items in order and closes the slot, returning the rewritten block, the
   * block's result stack and the enclosing exit slots.
   */
  method TycheckBlock(env: Env, b: Block, exits: Exits) returns (r: Res<(Block, Stack, Exits)>)
    ensures r == RunBlock(env, b, exits)
    decreases b, 1, 0
  {
    var targets := CollectLabels(b.items);
    if targets.Failure? {
      return Failure(targets.error);
    }
    var res := CheckItems(env, targets.value, b, Sim(exits + [Option.None], []));
    if res.Failure? {
      return Failure(res.error);
    }
    var blockExits := res.value.1.exits;
    r := Success((Block.Block(res.value.0), blockExits[|blockExits| - 1].GetOr([]), blockExits[..|blockExits| - 1]));
  }

  /** A label declared twice within a prefix makes the whole block's label collection fail. */
  lemma {:induction false} CollectFailurePersists(items: seq<BlockItem>, k: nat, k': nat)
    requires k <= k' <= |items|
    requires CollectTargets(items, k).Failure?
    ensures CollectTargets(items, k').Failure?
    decreases k'
  {
    if k' > k {
      CollectFailurePersists(items, k, k' - 1);
    }
  }

  /** A failure while replaying a prefix of a block is the failure of the whole block's replay. */
  lemma {:induction false} ReplayFailurePersists(env: Env, targets: Targets, b: Block, k: nat, k': nat, init: Sim)
    requires k <= k' <= |b.items|
    requires Replay(env, targets, b, k, init).Failure?
    ensures Replay(env, targets, b, k', init) == Failure(Replay(env, targets, b, k, init).error)
    decreases k'
  {
    if k' > k {
      ReplayFailurePersists(env, targets, b, k, k' - 1, init);
    }
  }

  /** `tycheck_function`. */
  method TycheckFunction(ts: TypeState, decl: FunctionDeclaration, fuel: nat) returns (r: Res<FunctionDeclaration>)
    ensures r == CheckFunction(ts, decl, fuel)
  {
    if decl.body.None? {
      return Success(decl);
    }
    var body := decl.body.value;
    var locals := decl.ty.params + body.locals;
    var res := TycheckBlock(Env(ts, locals, fuel), body.block, []);
    if res.Failure? {
      return Failure(res.error);
    }
    var ret := res.value.1;
    if decl.ty.ret.Void? {
      if |ret| != 0 {
        return Failure(ReturnArityMismatch);
      }
    } else {
      if |ret| != 1 {
        return Failure(ReturnArityMismatch);
      }
      var u := CheckUnify(ts, ret[0].ty, decl.ty.ret, fuel);
      if u.Failure? {
        return Failure(u.error);
      }
    }
    r := Success(FunctionDeclaration(decl.ty, Some(FunctionBody(body.locals, res.value.0))));
  }

  /** A pass-one step: recording one more member extends the tables by that member's entries. */
  lemma GatherOverStep(members: map<Path, ScopeMember>, seen: set<Path>, p: Path)
    requires p in members && p !in seen
    ensures var ts := GatherOver(members, seen);
            var ts' := GatherOver(members, seen + {p});
            var m := members[p].memberDecl;
            ts'.tys == (if GlobalType(m).Some? then ts.tys[p := GlobalType(m).value] else ts.tys) &&
            ts'.aggregate == (if AggregateEntry(m).Some? then ts.aggregate[p := AggregateEntry(m).value] else ts.aggregate)
  {
  }

  /** Pass one of `tycheck`: one table entry per function, static or aggregate member, visited in no particular order. */
  method GatherGlobals(members: map<Path, ScopeMember>) returns (ts: TypeState)
    ensures ts == GatherTypes(members)
  {
    ts := TypeState(map[], map[]);
    var todo := members.Keys;
    var seen: set<Path> := {};
    while todo != {}
      invariant todo + seen == members.Keys && todo !! seen
      invariant ts == GatherOver(members, seen)
      decreases todo
    {
      var p :| p in todo;
      GatherOverStep(members, seen, p);
      match members[p].memberDecl {
        case Function(fd) => ts := ts.(tys := ts.tys[p := Type.FnType(fd.ty)]);
        case Static(sd) => ts := ts.(tys := ts.tys[p := sd.staticTy]);
        case AggregateDefinition(defn) => ts := ts.(aggregate := ts.aggregate[p := Some(defn)]);
        case OpaqueAggregate(_) => ts := ts.(aggregate := ts.aggregate[p := Option.None]);
        case _ =>
      }
      todo, seen := todo - {p}, seen + {p};
    }
    assert seen == members.Keys;
  }

  /** Pass two of `tycheck` on one member. */
  method TycheckMember(ts: TypeState, m: ScopeMember, fuel: nat) returns (r: Res<ScopeMember>)
    ensures r == CheckMember(ts, m, fuel)
  {
    match m.memberDecl {
      case Function(fd) =>
        var fd' := TycheckFunction(ts, fd, fuel);
        if fd'.Failure? {
          return Failure(fd'.error);
        }
        r := Success(m.(memberDecl := MemberDeclaration.Function(fd'.value)));
      case Static(_) => r := Failure(Unsupported(StaticMember));
      case _ => r := Success(m);
    }
  }

  /**
   * `tycheck`: pass one builds the type tables from the root members, pass
   * two checks every root member, in no particular order (the members are a
   * hash map).  The file checks iff every member does; the error reported is
   * that of some failing member.
   */
  method Tycheck(file: File, fuel: nat) returns (r: Res<File>)
    ensures r.Success? <==> FileChecks(file, fuel)
    ensures r.Success? ==> r.value == CheckedFile(file, fuel)
    ensures r.Failure? ==>
              exists p :: p in file.root.members &&
                CheckMember(GatherTypes(file.root.members), file.root.members[p], fuel) == Failure(r.error)
  {
    var members := file.root.members;
    var ts := GatherGlobals(members);
    var checked: map<Path, ScopeMember> := map[];
    var todo := members.Keys;
    while todo != {}
      invariant todo <= members.Keys
      invariant checked.Keys == members.Keys - todo
      invariant forall q :: q in checked ==> CheckMember(ts, members[q], fuel) == Success(checked[q])
      decreases todo
    {
      var p :| p in todo;
      var res := TycheckMember(ts, members[p], fuel);
      if res.Failure? {
        return Failure(res.error);
      }
      checked := checked[p := res.value];
      todo := todo - {p};
    }
    assert FileChecks(file, fuel);
    r := Success(File(file.target, Scope.Scope(file.root.annotations, checked)));
  }
}
