/**
 * The xlang intermediate representation (the `xlang_struct` crate): the value
 * types the validator, the front ends and the code generators exchange.
 *
 * The datatypes follow the shapes the validator in `xir/src/validate.rs`
 * matches on, which is a superset of the variants declared in
 * `xlang/xlang_struct/src/lib.rs` (Null/Named/Aggregate/Product/Array/Tagged/
 * Aligned types, the full expression set, static and aggregate members,
 * function bodies with locals).  Payloads the validator never reads are kept
 * minimal.
 */
module Ir {
  import opened Wrappers
  import opened Prim

  // ---------------------------------------------------------------- paths

  datatype PathComponent = Root | Text(text: string) | SpecialComponent(special: string)

  /** A global name; the derived `Default` is the empty path. */
  datatype Path = Path(components: seq<PathComponent>)

  const DefaultPath: Path := Path([])

  // ---------------------------------------------------------- annotations

  datatype AnnotationItem = Meta(meta: Annotation) | Identifier(ident: Path)
  datatype Annotation = Annotation(items: seq<AnnotationItem>)
  datatype AnnotatedElement = AnnotatedElement(annotations: seq<Annotation>)

  const NoAnnotations: AnnotatedElement := AnnotatedElement([])

  // ----------------------------------------------------------- visibility

  /** `#[repr(u16)]` with explicit discriminants 0..4; the default is `Public`. */
  datatype Visibility = Public | Origin | Module | Private | None

  const DefaultVisibility: Visibility := Public

  function VisibilityCode(v: Visibility): (c: u16)
    ensures c <= 4
  {
    match v
    case Public => 0
    case Origin => 1
    case Module => 2
    case Private => 3
    case None => 4
  }

  /** The inverse of `VisibilityCode`: only the five declared discriminants are valid. */
  function VisibilityFromCode(c: u16): (r: Option<Visibility>)
    ensures r.Some? <==> c <= 4
    ensures r.Some? ==> VisibilityCode(r.value) == c
  {
    if c == 0 then Some(Public)
    else if c == 1 then Some(Origin)
    else if c == 2 then Some(Module)
    else if c == 3 then Some(Private)
    else if c == 4 then Some(Visibility.None)
    else Option.None
  }

  lemma VisibilityCodeRoundTrip(v: Visibility)
    ensures VisibilityFromCode(VisibilityCode(v)) == Some(v)
  {
  }

  // -------------------------------------------------------------- scalars

  /** The `ScalarValidity` bit flags. */
  const NONZERO: u8 := 0x01
  const FINITE: u8 := 0x02
  const NONNAN: u8 := 0x04

  datatype ScalarTypeHeader = ScalarTypeHeader(bitsize: u16, vectorsize: u16, validity: u8)

  /** The derived `Default`: every header field zero. */
  const DefaultHeader: ScalarTypeHeader := ScalarTypeHeader(0, 0, 0)

  /**
   * `Empty` is the default kind.  `Char` and `LongFloat` are only used by the
   * validator; an integer's optional bounds are carried but never compared.
   */
  datatype ScalarTypeKind =
    | Empty
    | Integer(signed: bool, min: Option<i128>, max: Option<i128>)
    | Float(decimal: bool)
    | Fixed(fractbits: u16)
    | Char(charFlags: u8)
    | LongFloat

  datatype ScalarType = ScalarType(header: ScalarTypeHeader, kind: ScalarTypeKind)

  const DefaultScalar: ScalarType := ScalarType(DefaultHeader, ScalarTypeKind.Empty)

  /** An integer scalar of `bits` bits with default vector size and validity and no bounds. */
  function IntScalar(bits: u16, signed: bool): (s: ScalarType)
    ensures s.header.bitsize == bits && s.header.vectorsize == 0 && s.header.validity == 0
    ensures s.kind.Integer? && s.kind.signed == signed
  {
    ScalarType(ScalarTypeHeader(bits, 0, 0), ScalarTypeKind.Integer(signed, Option.None, Option.None))
  }

  // ---------------------------------------------------- pointer metadata

  /** A `fake_enum`: any byte is representable, the default is code 0. */
  datatype PointerAliasingRule = PointerAliasingRule(aliasCode: u8)
  datatype ValidRangeType = ValidRangeType(rangeCode: u8)
  datatype PointerDeclarationType = PointerDeclarationType(declCode: u8)

  const ALIAS_NONE: u8 := 0
  const ALIAS_UNIQUE: u8 := 1
  const ALIAS_READ_ONLY: u8 := 2
  const ALIAS_READ_SHALLOW: u8 := 3
  const ALIAS_INVALID: u8 := 4
  const ALIAS_NONNULL: u8 := 5
  const ALIAS_VOLATILE: u8 := 6
  const ALIAS_VOLATILE_WRITE: u8 := 7
  const ALIAS_NULL_OR_INVALID: u8 := 8

  const RANGE_NONE: u8 := 0
  const RANGE_DEREFERENCE: u8 := 1
  const RANGE_DEREFERENCE_WRITE: u8 := 2
  const RANGE_WRITE_ONLY: u8 := 3
  const RANGE_NULL_OR_DEREFERENCE: u8 := 4
  const RANGE_NULL_OR_DEREFERENCE_WRITE: u8 := 5
  const RANGE_NULL_OR_WRITE_ONLY: u8 := 6

  /** A name of a `fake_enum` rule: one of the declared codes. */
  predicate IsNamedAliasingRule(r: PointerAliasingRule) { r.aliasCode <= ALIAS_NULL_OR_INVALID }
  predicate IsNamedValidRange(r: ValidRangeType) { r.rangeCode <= RANGE_NULL_OR_WRITE_ONLY }

  datatype Pair<+A, +B> = Pair(first: A, second: B)

  // ---------------------------------------------------------------- types

  datatype Abi = C | Cdecl | Fastcall | Stdcall | Vectorcall | Thiscall | SysV

  datatype AggregateKind = Struct | Union

  datatype Type =
    | Null
    | Scalar(scalar: ScalarType)
    | Void
    | FnType(fnTy: FnType)
    | Pointer(ptr: PointerType)
    | Named(path: Path)
    | Aggregate(defn: AggregateDefinition)
    | Product(elems: seq<Type>)
    | Array(arr: ArrayType)
    | TaggedType(tag: u16, inner: Type)
    | Aligned(align: Value, inner: Type)

  datatype PointerType = PointerType(
    alias: PointerAliasingRule,
    validRange: Pair<ValidRangeType, u64>,
    decl: PointerDeclarationType,
    pointee: Type)

  datatype FnType = FnTy(ret: Type, params: seq<Type>, variadic: bool, tag: Abi)

  datatype AggregateDefinition = AggregateDefinition(
    annotations: AnnotatedElement,
    kind: AggregateKind,
    fields: seq<Pair<string, Type>>)

  datatype ArrayType = ArrayType(elem: Type, len: Value)

  /** `PointerType { inner, ..Default::default() }`: every metadata field at its default. */
  function DefaultPointer(inner: Type): (p: PointerType)
    ensures p.pointee == inner
    ensures p.alias.aliasCode == ALIAS_NONE && p.validRange.first.rangeCode == RANGE_NONE
    ensures p.validRange.second == 0 && p.decl.declCode == 0
  {
    PointerType(PointerAliasingRule(0), Pair(ValidRangeType(0), 0), PointerDeclarationType(0), inner)
  }

  // --------------------------------------------------------------- values

  datatype Value =
    | Invalid(ty: Type)
    | Uninitialized(ty: Type)
    | GenericParameter(param: u32)
    | Integer(intTy: ScalarType, val: u32)
    | GlobalAddress(ty: Type, item: Path)
    | ByteString(content: seq<u8>)
    | String(utf8: string, ty: Type)
    | LabelAddress(labelNum: u32)

  // ---------------------------------------------------------- expressions

  datatype BinaryOp =
    | Add | Sub | Mul | Div | Mod | BitAnd | BitOr | BitXor | Rsh | Lsh
    | CmpInt | CmpLt | CmpGt | CmpEq | CmpNe | CmpGe | CmpLe | Cmp

  datatype UnaryOp = Minus | BitNot | LogicNot

  datatype OverflowBehaviour = Wrap | Unchecked | Trap | Checked | Saturate

  datatype BranchCondition = Always | Less | LessEqual | Equal | NotEqual | Greater | GreaterEqual | Never

  datatype LValueOp = Xchg | Cmpxchg | Wcmpxchg | PreInc | PostInc | PreDec | PostDec

  datatype ConversionStrength = Strong | Weak | Reinterpret

  /** Access-class bit flags; the validator never inspects them. */
  datatype AccessClass = AccessClass(bits: u8)

  datatype AggregateCtor = AggregateCtor(ctorTy: Type, fields: seq<string>)

  datatype HashSwitch = HashSwitch(cases: seq<Pair<Value, u32>>)
  datatype LinearSwitch = LinearSwitch(targets: seq<u32>)
  datatype Switch = Hash(hash: HashSwitch) | Linear(linear: LinearSwitch)

  datatype Expr =
    | Null
    | Const(v: Value)
    | ExitBlock(blk: u32, values: u16)
    | BinaryOp(binOp: BinaryOp, overflow: OverflowBehaviour)
    | UnaryOp(unOp: UnaryOp, overflow: OverflowBehaviour)
    | Tailcall(callTy: FnType)
    | CallFunction(callTy: FnType)
    | Branch(cond: BranchCondition, target: u32)
    | BranchIndirect
    | Convert(strength: ConversionStrength, convTy: Type)
    | Derive(derived: PointerType, derivedFrom: Expr)
    | Local(local: u32)
    | Pop(count: u32)
    | Dup(count: u32)
    | Pivot(below: u32, above: u32)
    | Aggregate(ctor: AggregateCtor)
    | Member(name: string)
    | MemberIndirect(name: string)
    | Block(n: u32, block: Block)
    | Assign(access: AccessClass)
    | AsRValue(access: AccessClass)
    | CompoundAssign(binOp: BinaryOp, overflow: OverflowBehaviour, access: AccessClass)
    | LValueOp(lvOp: LValueOp, overflow: OverflowBehaviour, access: AccessClass)
    | Indirect
    | AddrOf
    | Sequence(access: AccessClass)
    | Fence(access: AccessClass)
    | Switch(sw: Switch)

  datatype StackValueKind = LValue | RValue

  datatype StackItem = StackItem(ty: Type, kind: StackValueKind)

  datatype BlockItem =
    | Expr(expr: Expr)
    | Target(num: u32, stack: seq<StackItem>)

  datatype Block = Block(items: seq<BlockItem>)

  // ------------------------------------------------------------- members

  datatype FunctionBody = FunctionBody(locals: seq<Type>, block: Block)

  datatype FunctionDeclaration = FunctionDeclaration(ty: FnType, body: Option<FunctionBody>)

  datatype StaticDefinition = StaticDefinition(staticTy: Type, init: Value)

  /** `Empty` is the default declaration. */
  datatype MemberDeclaration =
    | Empty
    | Scope(scope: Scope)
    | Function(fnDecl: FunctionDeclaration)
    | Static(staticDef: StaticDefinition)
    | AggregateDefinition(aggregate: AggregateDefinition)
    | OpaqueAggregate(opaqueKind: AggregateKind)

  /** The derived `Default`: no annotations, `Public`, an `Empty` declaration. */
  datatype ScopeMember = ScopeMember(annotations: AnnotatedElement, vis: Visibility, memberDecl: MemberDeclaration)

  const DefaultScopeMember: ScopeMember := ScopeMember(NoAnnotations, DefaultVisibility, MemberDeclaration.Empty)

  /** The members of a scope, keyed by path (a hash map: no iteration order). */
  datatype Scope = Scope(annotations: AnnotatedElement, members: map<Path, ScopeMember>)

  /** The target triple a file is compiled for; the validator never reads it. */
  datatype TargetName = TargetName(name: string)

  datatype File = File(target: TargetName, root: Scope)
}
