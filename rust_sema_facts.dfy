/**
 * Properties of the semantic pass of the Rust-like front end
 * (`rust/src/sema.rs`): type conversion and its inverse, the conversion of
 * expressions and blocks, the walk over `extern` blocks and the declarations
 * and definitions it yields, and the rules of the tree type checker.
 */
module RustSemaFacts {
  import opened Wrappers
  import opened RustSema

  // ------------------------------------------------------ type conversion

  /** The types a written type can convert to: pointers over primitive types. */
  predicate Nameable(t: Type) {
    match t
    case Pointer(_, u) => Nameable(u)
    case _ => t.Name().Success?
  }

  /** The written type that names `t`: the inverse of `convert_ty` over the named types. */
  function Unconvert(t: Type): (p: AstType)
    requires Nameable(t)
  {
    match t
    case Pointer(m, u) => AstType.Pointer(m, Unconvert(u))
    case _ => AstType.Name(t.Name().value)
  }

  /** The position of a primitive type in the named types of pass one. */
  function PrimitiveIndex(t: Type): (j: nat)
    requires t.Name().Success?
    ensures j < |NamedTypes| - 1 && NamedTypes[j] == t
  {
    match t
    case Boolean => 0
    case Char => 1
    case Float(f) => if f == F32 then 2 else 3
    case Integer(i) =>
      match i
      case I8 => 4
      case I16 => 5
      case I32 => 6
      case I64 => 7
      case I128 => 8
      case Iptr => 9
      case Isize => 10
      case U8 => 11
      case U16 => 12
      case U32 => 13
      case U64 => 14
      case U128 => 15
      case Uptr => 16
      case Usize => 17
  }

  lemma PrimitiveIndexOfNamed(k: nat)
    requires k < |NamedTypes| - 1
    ensures NamedTypes[k].Name().Success? && PrimitiveIndex(NamedTypes[k]) == k
  {
  }

  /** Different primitive types have different names. */
  lemma NamesDistinct(a: Type, b: Type)
    requires a.Name().Success? && b.Name().Success? && a != b
    ensures a.Name().value != b.Name().value
  {
  }

  /** The name loop finds the first named type with the name, when every one before it has a different name. */
  lemma {:induction false} FindNamedFirst(named: seq<Type>, n: string, i: nat, j: nat)
    requires i <= j < |named| && named[j].Name() == Success(n)
    requires forall k | i <= k < j :: named[k].Name().Success? && named[k].Name().value != n
    ensures FindNamed(named, n, i) == Success(named[j])
    decreases j - i
  {
    if i < j {
      FindNamedFirst(named, n, i + 1, j);
    }
  }

  /** Every primitive type is found by its own name. */
  lemma PrimitiveNamed(t: Type)
    requires t.Name().Success?
    ensures FindNamed(NamedTypes, t.Name().value, 0) == Success(t)
  {
    var j := PrimitiveIndex(t);
    forall k | 0 <= k < j
      ensures NamedTypes[k].Name().Success? && NamedTypes[k].Name().value != t.Name().value
    {
      PrimitiveIndexOfNamed(k);
      NamesDistinct(NamedTypes[k], t);
    }
    FindNamedFirst(NamedTypes, t.Name().value, 0, j);
  }

  lemma {:induction false} ConvertTySound(p: AstType, t: Type)
    requires ConvertTy(NamedTypes, p) == Success(t)
    ensures Nameable(t) && p == Unconvert(t)
  {
    match p
    case Name(n) =>
    case Pointer(m, u) =>
      ConvertTySound(u, t.underlying);
  }

  lemma {:induction false} ConvertTyComplete(t: Type)
    requires Nameable(t)
    ensures ConvertTy(NamedTypes, Unconvert(t)) == Success(t)
  {
    match t
    case Pointer(m, u) =>
      ConvertTyComplete(u);
    case _ =>
      PrimitiveNamed(t);
  }

  /**
   * `convert_ty` over the named types of pass one: a written type converts
   * to `t` exactly when `t` is a pointer chain over a primitive type, spelled
   * with the same mutabilities and the primitive's name.
   */
  lemma ConvertTyRoundTrip(p: AstType, t: Type)
    ensures ConvertTy(NamedTypes, p) == Success(t) <==> Nameable(t) && p == Unconvert(t)
  {
    if ConvertTy(NamedTypes, p) == Success(t) {
      ConvertTySound(p, t);
    }
    if Nameable(t) && p == Unconvert(t) {
      ConvertTyComplete(t);
    }
  }

  lemma {:induction false} FindNamedNeverUnknown(n: string, i: nat)
    requires i < |NamedTypes|
    ensures FindNamed(NamedTypes, n, i).Failure? ==> FindNamed(NamedTypes, n, i).error == Unsupported(UnnamedType)
    decreases |NamedTypes| - i
  {
    if i + 1 < |NamedTypes| {
      FindNamedNeverUnknown(n, i + 1);
    }
  }

  /**
   * `Str` is the last named type and has no `name()`: a name matching no
   * primitive reaches it and stops at the `todo!()`, so conversion never
   * reports an unknown type.
   */
  lemma {:induction false} ConvertTyNeverUnknown(p: AstType)
    ensures ConvertTy(NamedTypes, p).Failure? ==> ConvertTy(NamedTypes, p).error == Unsupported(UnnamedType)
  {
    match p
    case Name(n) => FindNamedNeverUnknown(n, 0);
    case Pointer(_, u) => ConvertTyNeverUnknown(u);
  }

  lemma NoPrimitiveNamedStr()
    ensures forall t: Type :: t.Name() != Success("str")
  {
  }

  /** The name `str` does not convert, although `Str` is one of the named types. */
  lemma StrUnresolvable()
    ensures ConvertTy(NamedTypes, AstType.Name("str")) == Failure(Unsupported(UnnamedType))
  {
    NoPrimitiveNamedStr();
    FindNamedNeverUnknown("str", 0);
  }

  // ------------------------------------------------ expression conversion

  /** `e` inside `n` pairs of parentheses. */
  function Parenthesized(e: AstExpr, n: nat): AstExpr {
    if n == 0 then e else AstExpr.Parentheses(Parenthesized(e, n - 1))
  }

  /** Parentheses are erased: however many wrap an expression, it converts as itself. */
  lemma {:induction false} ParenthesesErased(named: seq<Type>, e: AstExpr, n: nat)
    ensures ConvertExpr(named, Parenthesized(e, n)) == ConvertExpr(named, e)
  {
    if n > 0 {
      ParenthesesErased(named, e, n - 1);
    }
  }

  /** Call arguments convert one for one, in order. */
  lemma {:induction false} ConvertArgsInOrder(named: seq<Type>, call: AstExpr, k: nat)
    requires call.FunctionCall? && k <= |call.params|
    ensures ConvertArgs(named, call, k).Success? <==> forall i | 0 <= i < k :: ConvertExpr(named, call.params[i]).Success?
    ensures ConvertArgs(named, call, k).Success? ==>
      forall i | 0 <= i < k :: ConvertExpr(named, call.params[i]) == Success(ConvertArgs(named, call, k).value[i])
  {
    if k > 0 {
      ConvertArgsInOrder(named, call, k - 1);
    }
  }

  /** A block converts statement for statement, in order; it fails when any item does. */
  lemma {:induction false} ConvertItemsInOrder(named: seq<Type>, items: seq<AstBlockItem>, k: nat)
    requires k <= |items|
    ensures ConvertItems(named, items, k).Success? <==> forall i | 0 <= i < k :: ConvertItem(named, items[i]).Success?
    ensures ConvertItems(named, items, k).Success? ==>
      forall i | 0 <= i < k :: ConvertItem(named, items[i]) == Success(ConvertItems(named, items, k).value[i])
  {
    if k > 0 {
      ConvertItemsInOrder(named, items, k - 1);
    }
  }

  // --------------------------------------------------------- extern scopes

  /** An item is acceptable in a scope: an `extern` block only at top level, holding only functions. */
  predicate NestingOk(item: AstItem, abi: Option<string>) {
    item.ExternBlock? ==> abi.None? && forall j | 0 <= j < |item.items| :: item.items[j].FnDeclaration?
  }

  /** The walk reaches its end exactly when no `extern` block is nested in another. */
  lemma {:induction false} WalkCompleteIff(items: seq<AstItem>, abi: Option<string>, k: nat)
    requires k <= |items|
    ensures IterInScope(items, abi, k).complete <==> forall i | 0 <= i < k :: NestingOk(items[i], abi)
    decreases items, k
  {
    if k > 0 {
      WalkCompleteIff(items, abi, k - 1);
      var item := items[k - 1];
      if item.ExternBlock? && abi.None? {
        WalkCompleteIff(item.items, Some(item.abi.GetOr("C")), |item.items|);
      }
    }
  }

  /** A visit comes from `item`: a function in the scope itself, or one inside a top-level `extern` block, with that block's ABI. */
  predicate FromItem(item: AstItem, abi: Option<string>, v: Visit) {
    || (item == FnDeclaration(v.decl) && v.abi == abi)
    || (item.ExternBlock? && abi.None? && FnDeclaration(v.decl) in item.items && v.abi == Some(item.abi.GetOr("C")))
  }

  /** A complete walk visits exactly the functions of the scope and of its `extern` blocks, each with its scope's ABI. */
  lemma {:induction false} WalkVisits(items: seq<AstItem>, abi: Option<string>, k: nat)
    requires k <= |items| && IterInScope(items, abi, k).complete
    ensures forall v :: v in IterInScope(items, abi, k).visits <==> exists i | 0 <= i < k :: FromItem(items[i], abi, v)
    decreases items, k
  {
    if k > 0 {
      WalkVisits(items, abi, k - 1);
      var item := items[k - 1];
      if item.ExternBlock? {
        var inner := Some(item.abi.GetOr("C"));
        WalkVisits(item.items, inner, |item.items|);
        forall v ensures v in IterInScope(item.items, inner, |item.items|).visits <==> FromItem(item, abi, v) {
          if FnDeclaration(v.decl) in item.items {
            var j :| 0 <= j < |item.items| && item.items[j] == FnDeclaration(v.decl);
            assert FromItem(item.items[j], inner, v) <==> v.abi == inner;
          }
        }
      }
    }
  }

  /** Once the walk has stopped it stays stopped, with the visits made so far. */
  lemma {:induction false} WalkStopPersists(items: seq<AstItem>, abi: Option<string>, k: nat, k': nat)
    requires k <= k' <= |items| && !IterInScope(items, abi, k).complete
    ensures IterInScope(items, abi, k') == IterInScope(items, abi, k)
    decreases k'
  {
    if k' > k {
      WalkStopPersists(items, abi, k, k' - 1);
    }
  }

  /** An `extern` block inside another is rejected, whatever either holds. */
  lemma NestedExternRejected(outer: Option<string>, inner: Option<string>, items: seq<AstItem>, rest: seq<AstItem>)
    ensures ConvertProgram([ExternBlock(outer, [ExternBlock(inner, items)] + rest)]) == Failure(NestedExtern)
  {
    var body := [ExternBlock(inner, items)] + rest;
    var scope := Some(outer.GetOr("C"));
    assert IterInScope(body, scope, 1) == Walk([], false) by {
      assert IterInScope(body, scope, 0) == Walk([], true);
      assert body[0].ExternBlock?;
    }
    WalkStopPersists(body, scope, 1, |body|);
    assert IterInScope([ExternBlock(outer, body)], None, 1) == Walk([], false) by {
      var w0 := IterInScope([ExternBlock(outer, body)], None, 0);
      assert w0 == Walk([], true);
      assert w0.visits + [] == [];
    }
  }

  // ---------------------------------------------------------- declarations

  /** The parameter types of a declaration convert one by one, in order; they fail when any does. */
  lemma {:induction false} ConvertParamsInOrder(named: seq<Type>, params: seq<AstParam>, k: nat)
    requires k <= |params|
    ensures ConvertParams(named, params, k).Success? <==> forall i | 0 <= i < k :: ConvertTy(named, params[i].ty).Success?
    ensures ConvertParams(named, params, k).Success? ==>
      forall i | 0 <= i < k :: ConvertTy(named, params[i].ty) == Success(ConvertParams(named, params, k).value[i])
  {
    if k > 0 {
      ConvertParamsInOrder(named, params, k - 1);
    }
  }

  /**
   * The declaration built for a visit, as the rules of pass two state it:
   * each written type is converted with the program's named types.
   */
  predicate DeclaredFrom(named: seq<Type>, d: Declaration, v: Visit) {
    && d.hasDefinition == v.decl.block.Some?
    && d.name == Basic(v.decl.name)
    && d.sig.visibility == v.decl.visibility
    && |d.sig.params| == |v.decl.params|
    && (forall i | 0 <= i < |v.decl.params| :: ConvertTy(named, v.decl.params[i].ty) == Success(d.sig.params[i]))
    && (v.decl.returnTy.None? ==> d.sig.returnTy == Unit)
    && (v.decl.returnTy.Some? ==> ConvertTy(named, v.decl.returnTy.value) == Success(d.sig.returnTy))
    && (v.abi.None? ==> d.sig.abi == Abi.Rust && d.sig.mangling == Mangling.C && d.sig.safety == v.decl.safety)
    && (v.abi.Some? ==> d.sig.mangling == Mangling.Rust && d.sig.safety == Unsafe)
    && (v.abi == Some("C") ==> d.sig.abi == Abi.C)
    && (v.abi == Some("Rust") ==> d.sig.abi == Abi.Rust)
  }

  lemma DeclareRules(named: seq<Type>, v: Visit)
    requires Declare(named, v).Success?
    ensures DeclaredFrom(named, Declare(named, v).value, v)
  {
    ConvertParamsInOrder(named, v.decl.params, |v.decl.params|);
  }

  /** A visit is declared exactly when its ABI is supported and every type it writes converts. */
  lemma DeclareSucceeds(named: seq<Type>, v: Visit)
    ensures Declare(named, v).Success? <==>
      && (v.abi.None? || v.abi == Some("C") || v.abi == Some("Rust"))
      && (forall i | 0 <= i < |v.decl.params| :: ConvertTy(named, v.decl.params[i].ty).Success?)
      && (v.decl.returnTy.Some? ==> ConvertTy(named, v.decl.returnTy.value).Success?)
  {
    ConvertParamsInOrder(named, v.decl.params, |v.decl.params|);
  }

  /** Pass two: one declaration per visit, in order. */
  lemma {:induction false} DeclareAllInOrder(named: seq<Type>, visits: seq<Visit>, k: nat)
    requires k <= |visits|
    ensures DeclareAll(named, visits, k).Success? <==> forall i | 0 <= i < k :: Declare(named, visits[i]).Success?
    ensures DeclareAll(named, visits, k).Success? ==>
      forall i | 0 <= i < k :: Declare(named, visits[i]) == Success(DeclareAll(named, visits, k).value[i])
  {
    if k > 0 {
      DeclareAllInOrder(named, visits, k - 1);
    }
  }

  /**
   * The declarations of a converted program follow the walk one for one:
   * a body present iff a definition, functions of `extern` blocks unsafe
   * with Rust mangling, a missing return type the empty tuple.
   */
  lemma ConvertDeclarations(items: seq<AstItem>, p: Program)
    requires ConvertProgram(items) == Success(p)
    ensures p.namedTypes == NamedTypes
    ensures IterInScope(items, None, |items|).complete
    ensures |p.declarations| == |IterInScope(items, None, |items|).visits|
    ensures forall i | 0 <= i < |p.declarations| :: DeclaredFrom(NamedTypes, p.declarations[i], IterInScope(items, None, |items|).visits[i])
  {
    var visits := IterInScope(items, None, |items|).visits;
    DeclareAllInOrder(NamedTypes, visits, |visits|);
    forall i | 0 <= i < |p.declarations| ensures DeclaredFrom(NamedTypes, p.declarations[i], visits[i]) {
      DeclareRules(NamedTypes, visits[i]);
    }
  }

  /** A function declared in an `extern` block with no ABI string gets the C ABI. */
  lemma ExternDefaultsToC(f: FnDecl)
    requires f.params == [] && f.returnTy.None? && f.block.None?
    ensures ConvertProgram([ExternBlock(None, [FnDeclaration(f)])]) == Success(Program(
      NamedTypes,
      [Declaration.Function(false, Basic(f.name), FunctionSignature(Abi.C, Mangling.Rust, [], Unit, Unsafe, f.visibility))],
      []))
  {
    var v := Visit(f, Some("C"));
    var w0 := IterInScope([FnDeclaration(f)], Some("C"), 0);
    assert w0 == Walk([], true);
    assert IterInScope([FnDeclaration(f)], Some("C"), 1) == Walk(w0.visits + [v], true);
    assert w0.visits + [v] == [v];
    var top := [ExternBlock(None, [FnDeclaration(f)])];
    var t0 := IterInScope(top, None, 0);
    assert t0 == Walk([], true);
    assert IterInScope(top, None, 1) == Walk(t0.visits + [v], true);
    assert t0.visits + [v] == [v];
    var d := Declaration.Function(false, Basic(f.name), FunctionSignature(Abi.C, Mangling.Rust, [], Unit, Unsafe, f.visibility));
    assert Declare(NamedTypes, v) == Success(d);
    var ds := DeclareAll(NamedTypes, [v], 0);
    assert ds == Success([]);
    assert DeclareAll(NamedTypes, [v], 1) == Success(ds.value + [d]);
    assert ds.value + [d] == [d];
    assert DefineAll(NamedTypes, [v], 1) == Success([]) by {
      assert DefineAll(NamedTypes, [v], 0) == Success([]);
    }
  }

  // ----------------------------------------------------------- definitions

  /** The functions among the first `k` visits that have a body, in order. */
  function Bodies(visits: seq<Visit>, k: nat): (r: seq<FnDecl>)
    requires k <= |visits|
    ensures forall i | 0 <= i < |r| :: r[i].block.Some?
  {
    if k == 0 then []
    else Bodies(visits, k - 1) + (if visits[k - 1].decl.block.Some? then [visits[k - 1].decl] else [])
  }

  /** Pass three: one definition per function with a body, in order. */
  lemma {:induction false} DefineAllInOrder(named: seq<Type>, visits: seq<Visit>, k: nat)
    requires k <= |visits| && DefineAll(named, visits, k).Success?
    ensures |DefineAll(named, visits, k).value| == |Bodies(visits, k)|
    ensures forall i | 0 <= i < |Bodies(visits, k)| :: Define(named, Bodies(visits, k)[i]) == Success(DefineAll(named, visits, k).value[i])
  {
    if k > 0 {
      DefineAllInOrder(named, visits, k - 1);
    }
  }

  lemma ConvertDefinitions(items: seq<AstItem>, p: Program)
    requires ConvertProgram(items) == Success(p)
    ensures var visits := IterInScope(items, None, |items|).visits;
      && |p.definitions| == |Bodies(visits, |visits|)|
      && forall i | 0 <= i < |p.definitions| :: Define(NamedTypes, Bodies(visits, |visits|)[i]) == Success(p.definitions[i])
  {
    var visits := IterInScope(items, None, |items|).visits;
    DefineAllInOrder(NamedTypes, visits, |visits|);
  }

  /**
   * The body of an `unsafe fn` becomes one unsafe block, so the definition
   * checks exactly when its converted body checks in an unsafe context.
   */
  lemma UnsafeFnBodyChecksUnsafe(decls: seq<Declaration>, named: seq<Type>, f: FnDecl, d: Definition)
    requires f.block.Some? && f.safety == Unsafe && Define(named, f) == Success(d)
    ensures ConvertItems(named, f.block.value, |f.block.value|).Success?
    ensures TypeckDefinition(decls, d).Success? <==>
      TypeckBlock(decls, ConvertItems(named, f.block.value, |f.block.value|).value, Unsafe, Some(d.returnTy)).Success?
  {
    var body := ConvertItems(named, f.block.value, |f.block.value|).value;
    var st := Statement.Expression(Expression.UnsafeBlock(body));
    assert d.body == [st];
    assert TypeckBulk(decls, d.body, Safe, 0) == Ok;
    assert TypeckStatement(decls, st, Safe, Some(d.returnTy)) == TypeckBlock(decls, body, Unsafe, Some(d.returnTy));
  }

  /** The body of a safe function is its converted block, checked in a safe context. */
  lemma SafeFnBodyChecksSafe(decls: seq<Declaration>, named: seq<Type>, f: FnDecl, d: Definition)
    requires f.block.Some? && f.safety == Safe && Define(named, f) == Success(d)
    ensures ConvertItems(named, f.block.value, |f.block.value|) == Success(d.body)
    ensures TypeckDefinition(decls, d).Success? <==> TypeckBlock(decls, d.body, Safe, Some(d.returnTy)).Success?
  {
  }

  // ---------------------------------------------------------- type checker

  /** A result checked against an expected type. */
  function Expect(r: Res<Type>, t: Type): Res<Type> {
    if r.Success? && r.value != t then Failure(TypeMismatch) else r
  }

  /**
   * The expected type is only checked, never used to infer: with one, an
   * expression has the type it has without one, or is rejected.  Identifiers
   * are the exception: their type is not compared with the expected one.
   */
  lemma {:induction false} ExpectedTypeExpr(decls: seq<Declaration>, e: Expression, s: Safety, t: Type)
    ensures TypeckExpr(decls, e, s, Some(t)) ==
      if e.Identifier? then TypeckExpr(decls, e, s, None) else Expect(TypeckExpr(decls, e, s, None), t)
    decreases e, 3, 0
  {
    if e.UnsafeBlock? {
      ExpectedTypeBlock(decls, e.stmts, Unsafe, t);
    }
  }

  /** A statement checks against its expected type only when it is an expression statement. */
  lemma {:induction false} ExpectedTypeStatement(decls: seq<Declaration>, st: Statement, s: Safety, t: Type)
    ensures TypeckStatement(decls, st, s, Some(t)) ==
      if st.Expression? then Expect(TypeckStatement(decls, st, s, None), t) else TypeckStatement(decls, st, s, None)
    decreases st, 3, 0
  {
    if st.Expression? {
      ExpectedTypeExpr(decls, st.expr, s, t);
    }
  }

  /** A block with an expected type has the type it has without one, or is rejected. */
  lemma {:induction false} ExpectedTypeBlock(decls: seq<Declaration>, block: seq<Statement>, s: Safety, t: Type)
    ensures TypeckBlock(decls, block, s, Some(t)) == Expect(TypeckBlock(decls, block, s, None), t)
    decreases block, 3, 0
  {
    if |block| > 0 {
      ExpectedTypeStatement(decls, block[|block| - 1], s, t);
    }
  }

  /** An expression accepted in a safe context is accepted, with the same type, in an unsafe one. */
  lemma {:induction false} SafeExprUnsafe(decls: seq<Declaration>, e: Expression, ty: Option<Type>)
    requires TypeckExpr(decls, e, Safe, ty).Success?
    ensures TypeckExpr(decls, e, Unsafe, ty) == TypeckExpr(decls, e, Safe, ty)
    decreases e, 3, 0
  {
    if e.FunctionCall? {
      SafeExprUnsafe(decls, e.func, None);
      var sig := TypeckExpr(decls, e.func, Safe, None).value.sig;
      SafeArgsUnsafe(decls, e, sig.params, |e.args|);
    }
  }

  lemma {:induction false} SafeArgsUnsafe(decls: seq<Declaration>, call: Expression, params: seq<Type>, k: nat)
    requires call.FunctionCall? && k <= |call.args| == |params|
    requires TypeckArgs(decls, call, params, Safe, k).Success?
    ensures TypeckArgs(decls, call, params, Unsafe, k) == TypeckArgs(decls, call, params, Safe, k)
    decreases call, 2, k
  {
    if k > 0 {
      SafeArgsUnsafe(decls, call, params, k - 1);
      SafeExprUnsafe(decls, call.args[k - 1], Some(params[k - 1]));
    }
  }

  lemma {:induction false} SafeStatementUnsafe(decls: seq<Declaration>, st: Statement, ty: Option<Type>)
    requires TypeckStatement(decls, st, Safe, ty).Success?
    ensures TypeckStatement(decls, st, Unsafe, ty) == TypeckStatement(decls, st, Safe, ty)
  {
    if !st.Bind? {
      SafeExprUnsafe(decls, st.expr, if st.Discard? then None else ty);
    }
  }

  lemma {:induction false} SafeBulkUnsafe(decls: seq<Declaration>, block: seq<Statement>, k: nat)
    requires k <= |block| && TypeckBulk(decls, block, Safe, k).Success?
    ensures TypeckBulk(decls, block, Unsafe, k) == TypeckBulk(decls, block, Safe, k)
  {
    if k > 0 {
      SafeBulkUnsafe(decls, block, k - 1);
      SafeStatementUnsafe(decls, block[k - 1], Some(Unit));
    }
  }

  /** A block accepted in a safe context is accepted, with the same type, in an unsafe one. */
  lemma SafeBlockUnsafe(decls: seq<Declaration>, block: seq<Statement>, ty: Option<Type>)
    requires TypeckBlock(decls, block, Safe, ty).Success?
    ensures TypeckBlock(decls, block, Unsafe, ty) == TypeckBlock(decls, block, Safe, ty)
  {
    if |block| > 0 {
      SafeBulkUnsafe(decls, block, |block| - 1);
      SafeStatementUnsafe(decls, block[|block| - 1], ty);
    }
  }

  /** The first declaration of a name gives it its type; a name with no declaration is rejected. */
  lemma {:induction false} IdentifierRule(decls: seq<Declaration>, id: Identifier, i: nat, t: Type)
    requires i <= |decls|
    ensures FindDecl(decls, id, i) == Success(t) <==>
      exists j | i <= j < |decls| :: decls[j].name == id && t == decls[j].Ty() && forall k | i <= k < j :: decls[k].name != id
    ensures FindDecl(decls, id, i) == Failure(UnresolvedIdentifier) <==> forall j | i <= j < |decls| :: decls[j].name != id
    decreases |decls| - i
  {
    if i < |decls| {
      IdentifierRule(decls, id, i + 1, t);
      if decls[i].name == id && t == decls[i].Ty() {
        assert i <= i < |decls| && decls[i].name == id && t == decls[i].Ty();
      }
    }
  }

  /** The argument loop succeeds exactly when every argument checks against its parameter. */
  lemma {:induction false} TypeckArgsAll(decls: seq<Declaration>, call: Expression, params: seq<Type>, s: Safety, k: nat)
    requires call.FunctionCall? && k <= |call.args| == |params|
    ensures TypeckArgs(decls, call, params, s, k).Success? <==>
      forall i | 0 <= i < k :: TypeckExpr(decls, call.args[i], s, Some(params[i])).Success?
  {
    if k > 0 {
      TypeckArgsAll(decls, call, params, s, k - 1);
    }
  }

  /** The call rule, with every argument checked against its parameter. */
  predicate CallAccepted(decls: seq<Declaration>, func: Expression, args: seq<Expression>, s: Safety, ty: Option<Type>, t: Type) {
    var ft := TypeckExpr(decls, func, s, None);
    && ft.Success? && ft.value.Function?
    && (ft.value.sig.safety == Unsafe ==> s == Unsafe)
    && |ft.value.sig.params| == |args|
    && (forall i | 0 <= i < |args| :: TypeckExpr(decls, args[i], s, Some(ft.value.sig.params[i])).Success?)
    && t == ft.value.sig.returnTy
    && (ty.Some? ==> ty.value == t)
  }

  /**
   * A call has type `t` exactly when the callee is a function, not unsafe
   * in a safe context, given as many arguments as it has parameters, each
   * accepted against its parameter, and `t` is its return type, equal to
   * the expected type when there is one.
   */
  lemma CallRule(decls: seq<Declaration>, func: Expression, args: seq<Expression>, s: Safety, ty: Option<Type>, t: Type)
    ensures TypeckExpr(decls, Expression.FunctionCall(func, args), s, ty) == Success(t) <==> CallAccepted(decls, func, args, s, ty, t)
  {
    var ft := TypeckExpr(decls, func, s, None);
    if ft.Success? && ft.value.Function? && |ft.value.sig.params| == |args| {
      TypeckArgsAll(decls, Expression.FunctionCall(func, args), ft.value.sig.params, s, |args|);
    }
  }

  /** An unsafe function cannot be called in a safe context, and can be called inside an unsafe block there. */
  lemma UnsafeCallNeedsUnsafeBlock(decls: seq<Declaration>, id: Identifier, sig: FunctionSignature)
    requires FindDecl(decls, id, 0) == Success(Type.Function(sig)) && sig.safety == Unsafe && sig.params == []
    ensures TypeckExpr(decls, Expression.FunctionCall(Expression.Identifier(id), []), Safe, None) == Failure(UnsafeCall)
    ensures TypeckExpr(decls, Expression.UnsafeBlock([Statement.Expression(Expression.FunctionCall(Expression.Identifier(id), []))]), Safe, None)
      == Success(sig.returnTy)
  {
    var call := Expression.FunctionCall(Expression.Identifier(id), []);
    assert TypeckExpr(decls, call, Unsafe, None) == Success(sig.returnTy) by {
      assert TypeckArgs(decls, call, sig.params, Unsafe, 0) == Ok;
    }
    assert TypeckBulk(decls, [Statement.Expression(call)], Unsafe, 0) == Ok;
    assert TypeckStatement(decls, Statement.Expression(call), Unsafe, None) == Success(sig.returnTy);
    assert TypeckBlock(decls, [Statement.Expression(call)], Unsafe, None) == Success(sig.returnTy);
  }

  /** An identifier passed as an argument is not checked against its parameter type. */
  lemma IdentifierArgumentUnchecked(decls: seq<Declaration>, f: Identifier, g: Identifier, sig: FunctionSignature, p: Type, tg: Type)
    requires FindDecl(decls, f, 0) == Success(Type.Function(sig)) && sig.safety == Safe && sig.params == [p]
    requires FindDecl(decls, g, 0) == Success(tg) && tg != p
    ensures TypeckExpr(decls, Expression.FunctionCall(Expression.Identifier(f), [Expression.Identifier(g)]), Safe, None) == Success(sig.returnTy)
  {
    var call := Expression.FunctionCall(Expression.Identifier(f), [Expression.Identifier(g)]);
    assert TypeckArgs(decls, call, sig.params, Safe, 1) == Ok;
  }

  /** The statement loop succeeds exactly when every statement has unit type. */
  lemma {:induction false} TypeckBulkAll(decls: seq<Declaration>, block: seq<Statement>, s: Safety, k: nat)
    requires k <= |block|
    ensures TypeckBulk(decls, block, s, k).Success? <==>
      forall i | 0 <= i < k :: TypeckStatement(decls, block[i], s, Some(Unit)) == Success(Unit)
  {
    if k > 0 {
      TypeckBulkAll(decls, block, s, k - 1);
    }
  }

  /**
   * The block rule: an empty block has unit type; otherwise every statement
   * but the last has unit type and the block has the last one's type; either
   * way equal to the expected type when there is one.
   */
  lemma BlockRule(decls: seq<Declaration>, block: seq<Statement>, s: Safety, ty: Option<Type>, t: Type)
    ensures TypeckBlock(decls, block, s, ty) == Success(t) <==>
      && (if |block| == 0 then t == Unit
          else
            && (forall i | 0 <= i < |block| - 1 :: TypeckStatement(decls, block[i], s, Some(Unit)) == Success(Unit))
            && TypeckStatement(decls, block[|block| - 1], s, ty) == Success(t))
      && (ty.Some? ==> ty.value == t)
  {
    if |block| > 0 {
      TypeckBulkAll(decls, block, s, |block| - 1);
    }
  }

  lemma {:induction false} TypeckDefinitionsAll(decls: seq<Declaration>, defs: seq<Definition>, k: nat)
    requires k <= |defs|
    ensures TypeckDefinitions(decls, defs, k).Success? <==> forall i | 0 <= i < k :: TypeckDefinition(decls, defs[i]).Success?
  {
    if k > 0 {
      TypeckDefinitionsAll(decls, defs, k - 1);
    }
  }

  /** A program checks exactly when each definition's body checks, safely, against its return type. */
  lemma TypeckProgramRule(p: Program)
    ensures TypeckProgram(p).Success? <==>
      forall i | 0 <= i < |p.definitions| :: TypeckBlock(p.declarations, p.definitions[i].body, Safe, Some(p.definitions[i].returnTy)).Success?
  {
    TypeckDefinitionsAll(p.declarations, p.definitions, |p.definitions|);
  }
}
