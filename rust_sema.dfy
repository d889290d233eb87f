/**
 * The semantic pass of the Rust-like front end (`rust/src/sema.rs`): the
 * syntax tree produced by the parser, the semantic types, declarations and
 * definitions, the conversion from one to the other, and the tree type
 * checker.
 *
 * The parser (`crate::parse`) and the lexer (`crate::lex`) are not part of
 * this model: their trees are input datatypes here, written as the semantic
 * pass reads them.  Every `panic!`/`assert!` of the pass is an `Error`, and
 * every `todo!()` is `Unsupported(..)`.
 */
module RustSema {
  import opened Wrappers

  // ---------------------------------------------------------------- syntax

  datatype Mutability = Const | Mut
  datatype Safety = Safe | Unsafe
  /** The declared visibility; the pass carries it through unchanged. */
  datatype Visibility = Private | Public
  /** The kind of a string literal, as the lexer reports it; carried through unchanged. */
  datatype StrType = StrType(tag: nat)

  /** A type as written: a name, or a pointer to a type. */
  datatype AstType =
    | Name(name: string)
    | Pointer(mutability: Mutability, underlying: AstType)

  datatype AstExpr =
    | Cast(expr: AstExpr, target: AstType)
    | FunctionCall(func: AstExpr, params: seq<AstExpr>)
    | Id(id: string)
    | Parentheses(inner: AstExpr)
    | StringLiteral(kind: StrType, val: string)
    | UnsafeBlock(block: seq<AstBlockItem>)

  datatype AstBlockItem =
    | Discard(expr: AstExpr)
    | Expr(expr: AstExpr)
    | Item(item: AstItem)

  datatype AstParam = AstParam(name: string, ty: AstType)

  /** The fields of `Item::FnDeclaration`. */
  datatype FnDecl = FnDecl(
    visibility: Visibility,
    safety: Safety,
    name: string,
    params: seq<AstParam>,
    returnTy: Option<AstType>,
    block: Option<seq<AstBlockItem>>)

  datatype AstItem =
    | ExternBlock(abi: Option<string>, items: seq<AstItem>)
    | FnDeclaration(decl: FnDecl)

  // ------------------------------------------------------- semantic model

  datatype FloatType = F32 | F64 {
    function Name(): string {
      match this
      case F32 => "f32"
      case F64 => "f64"
    }
  }

  datatype IntType = I8 | I16 | I32 | I64 | I128 | Iptr | Isize | U8 | U16 | U32 | U64 | U128 | Uptr | Usize {
    function Name(): string {
      match this
      case I8 => "i8"
      case I16 => "i16"
      case I32 => "i32"
      case I64 => "i64"
      case I128 => "i128"
      case Iptr => "iptr"
      case Isize => "isize"
      case U8 => "u8"
      case U16 => "u16"
      case U32 => "u32"
      case U64 => "u64"
      case U128 => "u128"
      case Uptr => "uptr"
      case Usize => "usize"
    }
  }

  datatype Type =
    | Boolean
    | Char
    | Float(floatTy: FloatType)
    | Function(sig: FunctionSignature)
    | Integer(intTy: IntType)
    | Pointer(mutability: Mutability, underlying: Type)
    | Str
    | Tuple(elems: seq<Type>)
  {
    /** `Type::name`: the spelling of a primitive type; the other variants are `todo!()`. */
    function Name(): (r: Res<string>)
      ensures r.Success? <==> Boolean? || Char? || Float? || Integer?
    {
      match this
      case Boolean => Success("bool")
      case Char => Success("char")
      case Float(f) => Success(f.Name())
      case Integer(i) => Success(i.Name())
      case _ => Failure(Unsupported(UnnamedType))
    }
  }

  datatype Abi = C | CUnwind | Fastcall | FastcallUnwind | Rust | RustCall | RustcallV0 | RustIntrinsic | Stdcall | StdcallUnwind

  datatype Mangling = C | Rust

  datatype FunctionSignature = FunctionSignature(
    abi: Abi,
    mangling: Mangling,
    params: seq<Type>,
    returnTy: Type,
    safety: Safety,
    visibility: Visibility)

  datatype Identifier = Basic(text: string)

  datatype Declaration = Function(hasDefinition: bool, name: Identifier, sig: FunctionSignature) {
    /** `Declaration::ty`: the type of the declared name. */
    function Ty(): Type {
      Type.Function(sig)
    }
  }

  datatype Expression =
    | Cast(expr: Expression, target: Type)
    | FunctionArg(index: nat)
    | FunctionCall(func: Expression, args: seq<Expression>)
    | Identifier(id: Identifier)
    | StringLiteral(kind: StrType, val: string)
    | UnsafeBlock(stmts: seq<Statement>)

  datatype Statement =
    | Bind(target: string, value: Expression)
    | Discard(expr: Expression)
    | Expression(expr: Expression)

  datatype Definition = Function(name: Identifier, returnTy: Type, body: seq<Statement>)

  datatype Program = Program(namedTypes: seq<Type>, declarations: seq<Declaration>, definitions: seq<Definition>)

  /** The constructs the pass leaves as `todo!()`. */
  datatype Feature =
    | UnnamedType          // Type::name on a non-primitive type
    | AbiString            // an ABI string other than "C" and "Rust"
    | FunctionParameters   // a defined function with parameters
    | ItemInBlock          // an item inside a code block
    | BindStatement        // typeck of `Statement::Bind`
    | OtherExpression      // typeck of casts, arguments and string literals

  /** The ways the pass aborts. */
  datatype Error =
    | UnknownType(name: string)   // convert_ty: "Unknown type"
    | NestedExtern                // iter_in_scope: "`extern` blocks can't be nested"
    | UnsafeCall                  // "unsafe function called in safe context"
    | ArityMismatch               // "provided .. args to a function expecting .."
    | NotAFunction                // "tried to call a .. as a function"
    | UnresolvedIdentifier        // "could not resolve identifier"
    | TypeMismatch                // "expected .., got .."
    | Unsupported(feature: Feature)

  type Res<T> = Result<T, Error>

  const Ok: Res<()> := Success(())

  const Unit: Type := Type.Tuple([])

  // ------------------------------------------------------------ conversion

  /** The named types of pass one, in the order `convert` lists them. */
  const NamedTypes: seq<Type> := [
    Boolean, Char, Float(F32), Float(F64),
    Integer(I8), Integer(I16), Integer(I32), Integer(I64), Integer(I128), Integer(Iptr), Integer(Isize),
    Integer(U8), Integer(U16), Integer(U32), Integer(U64), Integer(U128), Integer(Uptr), Integer(Usize),
    Str]

  /**
   * The name loop of `convert_ty` from position `i` on: each named type's
   * `name()` is compared with `name` in turn, and the first equal one is the
   * result.
   */
  function FindNamed(named: seq<Type>, name: string, i: nat): (r: Res<Type>)
    requires i <= |named|
    ensures r.Success? ==> r.value in named[i..] && r.value.Name() == Success(name)
    decreases |named| - i
  {
    if i == |named| then Failure(UnknownType(name))
    else
      var n :- named[i].Name();
      if name == n then Success(named[i]) else FindNamed(named, name, i + 1)
  }

  /** `convert_ty`. */
  function ConvertTy(named: seq<Type>, orig: AstType): (r: Res<Type>)
  {
    match orig
    case Name(name) => FindNamed(named, name, 0)
    case Pointer(m, u) =>
      var t :- ConvertTy(named, u);
      Success(Type.Pointer(m, t))
  }

  /** `convert_expr`: parentheses are dropped, and call arguments converted in order. */
  function ConvertExpr(named: seq<Type>, orig: AstExpr): (r: Res<Expression>)
    decreases orig, 2, 0
  {
    match orig
    case Cast(e, target) =>
      var e' :- ConvertExpr(named, e);
      var t :- ConvertTy(named, target);
      Success(Expression.Cast(e', t))
    case FunctionCall(func, params) =>
      var f :- ConvertExpr(named, func);
      var args :- ConvertArgs(named, orig, |params|);
      Success(Expression.FunctionCall(f, args))
    case Id(id) => Success(Expression.Identifier(Basic(id)))
    case Parentheses(inner) => ConvertExpr(named, inner)
    case StringLiteral(kind, val) => Success(Expression.StringLiteral(kind, val))
    case UnsafeBlock(inner) =>
      var stmts :- ConvertItems(named, inner, |inner|);
      Success(Expression.UnsafeBlock(stmts))
  }

  /** The first `k` arguments of a call, converted in order. */
  function ConvertArgs(named: seq<Type>, call: AstExpr, k: nat): (r: Res<seq<Expression>>)
    requires call.FunctionCall? && k <= |call.params|
    ensures r.Success? ==> |r.value| == k
    decreases call, 1, k
  {
    if k == 0 then Success([])
    else
      var prev :- ConvertArgs(named, call, k - 1);
      var a :- ConvertExpr(named, call.params[k - 1]);
      Success(prev + [a])
  }

  /** One block item of `convert_block`. */
  function ConvertItem(named: seq<Type>, item: AstBlockItem): (r: Res<Statement>)
    decreases item, 2, 0
  {
    match item
    case Discard(e) =>
      var e' :- ConvertExpr(named, e);
      Success(Statement.Discard(e'))
    case Expr(e) =>
      var e' :- ConvertExpr(named, e);
      Success(Statement.Expression(e'))
    case Item(_) => Failure(Unsupported(ItemInBlock))
  }

  /** The first `k` items of a block, converted in order: what `convert_block` computes. */
  function ConvertItems(named: seq<Type>, items: seq<AstBlockItem>, k: nat): (r: Res<seq<Statement>>)
    requires k <= |items|
    ensures r.Success? ==> |r.value| == k
    decreases items, 1, k
  {
    if k == 0 then Success([])
    else
      var prev :- ConvertItems(named, items, k - 1);
      var s :- ConvertItem(named, items[k - 1]);
      Success(prev + [s])
  }

  /** `convert_block`: pushes the converted statements one by one. */
  method ConvertBlock(named: seq<Type>, orig: seq<AstBlockItem>) returns (r: Res<seq<Statement>>)
    ensures r == ConvertItems(named, orig, |orig|)
  {
    var result: seq<Statement> := [];
    var i := 0;
    while i < |orig|
      invariant 0 <= i <= |orig|
      invariant ConvertItems(named, orig, i) == Success(result)
    {
      var s := ConvertItem(named, orig[i]);
      if s.Failure? {
        ConvertItemsFailurePersists(named, orig, i + 1, |orig|);
        return Failure(s.error);
      }
      result := result + [s.value];
      i := i + 1;
    }
    r := Success(result);
  }

  lemma {:induction false} ConvertItemsFailurePersists(named: seq<Type>, items: seq<AstBlockItem>, k: nat, k': nat)
    requires k <= k' <= |items| && ConvertItems(named, items, k).Failure?
    ensures ConvertItems(named, items, k') == ConvertItems(named, items, k)
    decreases k'
  {
    if k' > k {
      ConvertItemsFailurePersists(named, items, k, k' - 1);
    }
  }

  /** One call of the callback of `iter_in_scope`: a function declaration and the ABI of its scope. */
  datatype Visit = Visit(decl: FnDecl, abi: Option<string>)

  /**
   * The calls `iter_in_scope` makes, in order; `complete` is false when the
   * walk stopped at a nested `extern` block, after the calls listed.
   */
  datatype Walk = Walk(visits: seq<Visit>, complete: bool)

  /**
   * `iter_in_scope` over the first `k` items: an `extern` block is walked
   * with its ABI string, "C" when it names none, and one inside another
   * stops the walk.
   */
  function IterInScope(items: seq<AstItem>, abi: Option<string>, k: nat): (w: Walk)
    requires k <= |items|
    decreases items, k
  {
    if k == 0 then Walk([], true)
    else
      var w := IterInScope(items, abi, k - 1);
      if !w.complete then w
      else
        match items[k - 1]
        case ExternBlock(newAbi, inner) =>
          if abi.Some? then Walk(w.visits, false)
          else
            var w' := IterInScope(inner, Some(newAbi.GetOr("C")), |inner|);
            Walk(w.visits + w'.visits, w'.complete)
        case FnDeclaration(f) => Walk(w.visits + [Visit(f, abi)], true)
  }

  /** The ABI of a declaration: `Rust` outside an `extern` block. */
  function AbiOf(abi: Option<string>): (r: Res<Abi>)
  {
    match abi
    case None => Success(Abi.Rust)
    case Some(s) =>
      if s == "C" then Success(Abi.C)
      else if s == "Rust" then Success(Abi.Rust)
      else Failure(Unsupported(AbiString))
  }

  /** The parameter types of a declaration, the first `k` converted in order. */
  function ConvertParams(named: seq<Type>, params: seq<AstParam>, k: nat): (r: Res<seq<Type>>)
    requires k <= |params|
    ensures r.Success? ==> |r.value| == k
  {
    if k == 0 then Success([])
    else
      var prev :- ConvertParams(named, params, k - 1);
      var t :- ConvertTy(named, params[k - 1].ty);
      Success(prev + [t])
  }

  /** A declared return type; none written is the empty tuple. */
  function ConvertReturn(named: seq<Type>, returnTy: Option<AstType>): (r: Res<Type>)
  {
    match returnTy
    case None => Success(Unit)
    case Some(t) => ConvertTy(named, t)
  }

  /** The callback of pass two: the declaration built for one visit. */
  function Declare(named: seq<Type>, v: Visit): (r: Res<Declaration>)
  {
    var f := v.decl;
    var abi :- AbiOf(v.abi);
    var params :- ConvertParams(named, f.params, |f.params|);
    var ret :- ConvertReturn(named, f.returnTy);
    Success(Declaration.Function(
      f.block.Some?,
      Basic(f.name),
      FunctionSignature(
        abi,
        if v.abi.Some? then Mangling.Rust else Mangling.C,
        params,
        ret,
        if v.abi.Some? then Unsafe else f.safety,
        f.visibility)))
  }

  /** Pass two over the first `k` visits: one declaration per visit. */
  function DeclareAll(named: seq<Type>, visits: seq<Visit>, k: nat): (r: Res<seq<Declaration>>)
    requires k <= |visits|
    ensures r.Success? ==> |r.value| == k
  {
    if k == 0 then Success([])
    else
      var prev :- DeclareAll(named, visits, k - 1);
      var d :- Declare(named, visits[k - 1]);
      Success(prev + [d])
  }

  /**
   * The callback of pass three on a function with a body: parameters are
   * `todo!()`, and the body of an `unsafe fn` is wrapped in one unsafe block.
   */
  function Define(named: seq<Type>, f: FnDecl): (r: Res<Definition>)
    requires f.block.Some?
  {
    if |f.params| > 0 then Failure(Unsupported(FunctionParameters))
    else
      var body :- ConvertItems(named, f.block.value, |f.block.value|);
      var ret :- ConvertReturn(named, f.returnTy);
      Success(Definition.Function(
        Basic(f.name),
        ret,
        if f.safety == Unsafe then [Statement.Expression(Expression.UnsafeBlock(body))] else body))
  }

  /** Pass three over the first `k` visits: one definition per function with a body. */
  function DefineAll(named: seq<Type>, visits: seq<Visit>, k: nat): (r: Res<seq<Definition>>)
    requires k <= |visits|
    ensures r.Success? ==> |r.value| <= k
  {
    if k == 0 then Success([])
    else
      var prev :- DefineAll(named, visits, k - 1);
      if visits[k - 1].decl.block.None? then Success(prev)
      else
        var d :- Define(named, visits[k - 1].decl);
        Success(prev + [d])
  }

  /** What `convert` computes: the named types, then the declarations, then the definitions. */
  function ConvertProgram(items: seq<AstItem>): (r: Res<Program>)
  {
    var walk := IterInScope(items, None, |items|);
    var declarations :- DeclareAll(NamedTypes, walk.visits, |walk.visits|);
    if !walk.complete then Failure(NestedExtern)
    else
      var definitions :- DefineAll(NamedTypes, walk.visits, |walk.visits|);
      Success(Program(NamedTypes, declarations, definitions))
  }

  /** The closure of pass three, building `body` in place. */
  method DefineFunction(named: seq<Type>, f: FnDecl) returns (r: Res<Definition>)
    requires f.block.Some?
    ensures r == Define(named, f)
  {
    if |f.params| > 0 {
      return Failure(Unsupported(FunctionParameters));
    }
    var converted := ConvertBlock(named, f.block.value);
    if converted.Failure? {
      return Failure(converted.error);
    }
    var body: seq<Statement> := [];
    body := body + converted.value;
    assert body == converted.value;
    if f.safety == Unsafe {
      body := [Statement.Expression(Expression.UnsafeBlock(body))];
    }
    var ret := ConvertReturn(named, f.returnTy);
    if ret.Failure? {
      return Failure(ret.error);
    }
    r := Success(Definition.Function(Basic(f.name), ret.value, body));
  }

  /** Pass two of `convert`: the callback pushes one declaration per visit. */
  method DeclarePass(named: seq<Type>, visits: seq<Visit>) returns (r: Res<seq<Declaration>>)
    ensures r == DeclareAll(named, visits, |visits|)
  {
    var declarations: seq<Declaration> := [];
    var i := 0;
    while i < |visits|
      invariant 0 <= i <= |visits|
      invariant DeclareAll(named, visits, i) == Success(declarations)
    {
      var d := Declare(named, visits[i]);
      if d.Failure? {
        DeclareAllFailurePersists(named, visits, i + 1, |visits|);
        return Failure(d.error);
      }
      declarations := declarations + [d.value];
      i := i + 1;
    }
    r := Success(declarations);
  }

  /** Pass three of `convert`: the callback pushes one definition per function with a body. */
  method DefinePass(named: seq<Type>, visits: seq<Visit>) returns (r: Res<seq<Definition>>)
    ensures r == DefineAll(named, visits, |visits|)
  {
    var definitions: seq<Definition> := [];
    var i := 0;
    while i < |visits|
      invariant 0 <= i <= |visits|
      invariant DefineAll(named, visits, i) == Success(definitions)
    {
      var f := visits[i].decl;
      if f.block.Some? {
        var d := DefineFunction(named, f);
        if d.Failure? {
          DefineAllFailurePersists(named, visits, i + 1, |visits|);
          return Failure(d.error);
        }
        definitions := definitions + [d.value];
      }
      i := i + 1;
    }
    r := Success(definitions);
  }

  /** `convert`: the named types, then pass two over the walk, then pass three. */
  method Convert(items: seq<AstItem>) returns (r: Res<Program>)
    ensures r == ConvertProgram(items)
  {
    var named := NamedTypes;
    var walk := IterInScope(items, None, |items|);
    var declarations := DeclarePass(named, walk.visits);
    if declarations.Failure? {
      return Failure(declarations.error);
    }
    if !walk.complete {
      return Failure(NestedExtern);
    }
    var definitions := DefinePass(named, walk.visits);
    if definitions.Failure? {
      return Failure(definitions.error);
    }
    r := Success(Program(named, declarations.value, definitions.value));
  }

  lemma {:induction false} DeclareAllFailurePersists(named: seq<Type>, visits: seq<Visit>, k: nat, k': nat)
    requires k <= k' <= |visits| && DeclareAll(named, visits, k).Failure?
    ensures DeclareAll(named, visits, k') == DeclareAll(named, visits, k)
    decreases k'
  {
    if k' > k {
      DeclareAllFailurePersists(named, visits, k, k' - 1);
    }
  }

  lemma {:induction false} DefineAllFailurePersists(named: seq<Type>, visits: seq<Visit>, k: nat, k': nat)
    requires k <= k' <= |visits| && DefineAll(named, visits, k).Failure?
    ensures DefineAll(named, visits, k') == DefineAll(named, visits, k)
    decreases k'
  {
    if k' > k {
      DefineAllFailurePersists(named, visits, k, k' - 1);
    }
  }

  // ---------------------------------------------------------- type checker

  /** The identifier loop of `typeck_expr`: the type of the first declaration from `i` on with that name. */
  function FindDecl(decls: seq<Declaration>, id: Identifier, i: nat): (r: Res<Type>)
    requires i <= |decls|
    decreases |decls| - i
  {
    if i == |decls| then Failure(UnresolvedIdentifier)
    else if decls[i].name == id then Success(decls[i].Ty())
    else FindDecl(decls, id, i + 1)
  }

  /** `typeck_expr`: the type of `e` in a context of the given safety, checked against `ty` when one is expected. */
  function TypeckExpr(decls: seq<Declaration>, e: Expression, safety: Safety, ty: Option<Type>): (r: Res<Type>)
    decreases e, 3, 0
  {
    match e
    case FunctionCall(func, args) =>
      var funcTy :- TypeckExpr(decls, func, safety, None);
      if !funcTy.Function? then Failure(NotAFunction)
      else if funcTy.sig.safety == Unsafe && safety == Safe then Failure(UnsafeCall)
      else if |funcTy.sig.params| != |args| then Failure(ArityMismatch)
      else
        var _ :- TypeckArgs(decls, e, funcTy.sig.params, safety, |args|);
        if ty.Some? && funcTy.sig.returnTy != ty.value then Failure(TypeMismatch)
        else Success(funcTy.sig.returnTy)
    case Identifier(id) => FindDecl(decls, id, 0)
    case UnsafeBlock(inner) => TypeckBlock(decls, inner, Unsafe, ty)
    case _ => Failure(Unsupported(OtherExpression))
  }

  /** The argument loop of a call: the first `k` arguments, each checked against its parameter type. */
  function TypeckArgs(decls: seq<Declaration>, call: Expression, params: seq<Type>, safety: Safety, k: nat): (r: Res<()>)
    requires call.FunctionCall? && k <= |call.args| == |params|
    decreases call, 2, k
  {
    if k == 0 then Ok
    else
      var _ :- TypeckArgs(decls, call, params, safety, k - 1);
      var _ :- TypeckExpr(decls, call.args[k - 1], safety, Some(params[k - 1]));
      Ok
  }

  /** `typeck_statement`. */
  function TypeckStatement(decls: seq<Declaration>, s: Statement, safety: Safety, ty: Option<Type>): (r: Res<Type>)
    decreases s, 3, 0
  {
    match s
    case Bind(_, _) => Failure(Unsupported(BindStatement))
    case Discard(e) =>
      var _ :- TypeckExpr(decls, e, safety, None);
      Success(Unit)
    case Expression(e) =>
      var t :- TypeckExpr(decls, e, safety, ty);
      if ty.Some? && t != ty.value then Failure(TypeMismatch) else Success(t)
  }

  /** The loop of `typeck_block` over every statement but the last, each of which must have unit type. */
  function TypeckBulk(decls: seq<Declaration>, block: seq<Statement>, safety: Safety, k: nat): (r: Res<()>)
    requires k <= |block|
    decreases block, 2, k
  {
    if k == 0 then Ok
    else
      var _ :- TypeckBulk(decls, block, safety, k - 1);
      var t :- TypeckStatement(decls, block[k - 1], safety, Some(Unit));
      if t != Unit then Failure(TypeMismatch) else Ok
  }

  /** `typeck_block`: the type of the last statement, unit for an empty block. */
  function TypeckBlock(decls: seq<Declaration>, block: seq<Statement>, safety: Safety, ty: Option<Type>): (r: Res<Type>)
    decreases block, 3, 0
  {
    var t :-
      if |block| == 0 then Success(Unit)
      else
        var _ :- TypeckBulk(decls, block, safety, |block| - 1);
        TypeckStatement(decls, block[|block| - 1], safety, ty);
    if ty.Some? && t != ty.value then Failure(TypeMismatch) else Success(t)
  }

  /** `typeck_definition`: the body is checked in a safe context against the return type. */
  function TypeckDefinition(decls: seq<Declaration>, d: Definition): (r: Res<()>)
  {
    var _ :- TypeckBlock(decls, d.body, Safe, Some(d.returnTy));
    Ok
  }

  /** `typeck_program` over the first `k` definitions. */
  function TypeckDefinitions(decls: seq<Declaration>, defs: seq<Definition>, k: nat): (r: Res<()>)
    requires k <= |defs|
  {
    if k == 0 then Ok
    else
      var _ :- TypeckDefinitions(decls, defs, k - 1);
      TypeckDefinition(decls, defs[k - 1])
  }

  /** `typeck_program`: every definition, in order, against the program's declarations. */
  function TypeckProgram(p: Program): (r: Res<()>)
  {
    TypeckDefinitions(p.declarations, p.definitions, |p.definitions|)
  }
}
