/**
 * The type layer of the xir validator (`xir/src/validate.rs`, lines 9-222):
 * the global type state, one-level type resolution, field lookup, and
 * structural unification of types and of stack shapes.
 *
 * Every panic of the validator (`assert!`, `unwrap`, out-of-range index,
 * `panic!`) is an `Error` here, and every `todo!()` is `Unsupported(..)`.
 * Unification follows `Named` types through the type map, which may be
 * cyclic; it is given `fuel`, spent once per resolution that leads to a
 * structural recursion, and reports `DepthExceeded` when it runs out.
 */
module XirTypes {
  import opened Wrappers
  import opened Prim
  import opened Ir

  /** The constructs the validator leaves as `todo!()`. */
  datatype Feature =
    | GenericParameterConst
    | TailcallExpr
    | ConvertExpr
    | LinearSwitchExpr
    | NonScalarBinaryOp
    | NonScalarCompoundAssign
    | StaticMember

  /** The ways validation aborts. */
  datatype Error =
    | TypeMismatch            // check_unify: assert_eq!/panic! "cannot unify types"
    | DepthExceeded           // resolution of Named types nested deeper than the fuel
    | CyclicNamedType         // get_field_type following Named types in a cycle
    | BadTupleFieldName       // name.parse::<usize>() on a product type fails
    | TupleIndexOutOfRange    // tys[v] on a product type
    | NoSuchField             // .next().unwrap() on an aggregate's fields
    | OpaqueAggregateField    // ag.unwrap() on an opaque aggregate
    | UnknownName             // self.tys[p] on an unknown path
    | NotAnAggregate          // get_field_type returned None
    | StackUnderflow          // pop/checked_sub/split_off_back/subtraction underflow
    | KindMismatch            // assert_eq!(item.kind, ..)
    | StackItemMismatch       // check_unify_stack: "Could not unify stack items"
    | SwitchTargetMismatch    // switch case targets with different stacks
    | ExitArityMismatch       // ExitBlock: items.len() == values
    | UnknownTarget           // targets[n] on a missing label
    | LabelStackNotEmpty      // LabelAddress of a label whose stack is not empty
    | BlockIndexOutOfRange    // block_exits[blk]
    | LocalIndexOutOfRange    // locals[n]
    | NestingMismatch         // Block { n, .. }: n == block_exits.len()
    | DuplicateTarget         // "Target @n redeclared"
    | VariadicCallSite        // "Cannot call with variadic signature"
    | VariadicArityMismatch   // variadic callee with more fixed params than supplied
    | InvalidOperand          // "Cannot apply/call/branch on/switch on/use ... on"
    | ReturnArityMismatch     // tycheck_function: ret.len() == 0 / 1
    | Unsupported(feature: Feature)

  type Res<T> = Result<T, Error>

  /** Global types: functions and statics by path, and aggregate definitions (None when opaque). */
  datatype TypeState = TypeState(tys: map<Path, Type>, aggregate: map<Path, Option<AggregateDefinition>>)

  const Ok: Res<()> := Success(())

  // ----------------------------------------------------------- refiy_type

  /** Whether resolving `t` goes through the type map. */
  predicate Resolves(ts: TypeState, t: Type) {
    t.Named? && t.path in ts.tys
  }

  /**
   * `refiy_type`: one step of resolution.  A `Named` type known to the map is
   * replaced by its definition (an unknown one is kept), a tagged or aligned
   * type loses exactly one wrapper, anything else is returned as is.
   */
  function RefiyType(ts: TypeState, t: Type): (r: Type)
    ensures Resolves(ts, t) ==> r == ts.tys[t.path]
    ensures !Resolves(ts, t) && (t.TaggedType? || t.Aligned?) ==> r == t.inner
    ensures !Resolves(ts, t) && !t.TaggedType? && !t.Aligned? ==> r == t
  {
    match t
    case Named(p) => if p in ts.tys then ts.tys[p] else t
    case TaggedType(_, inner) => inner
    case Aligned(_, inner) => inner
    case _ => t
  }

  // ------------------------------------------------------ get_field_type

  predicate IsDigit(c: char) { '0' <= c <= '9' }

  function DigitsValue(s: string): (n: nat)
    requires forall i :: 0 <= i < |s| ==> IsDigit(s[i])
    decreases |s|
  {
    if s == [] then 0 else assert IsDigit(s[|s| - 1]); 10 * DigitsValue(s[..|s| - 1]) + (s[|s| - 1] as int - '0' as int) as nat
  }

  const USIZE_LIMIT: nat := 0x1_0000_0000_0000_0000

  /**
   * `str::parse::<usize>()` for a 64-bit `usize`: an optional `+`, then one or
   * more decimal digits whose value fits.
   */
  function ParseUsize(s: string): (r: Option<nat>)
    ensures r.Some? ==> r.value < USIZE_LIMIT
    ensures r.Some? <==>
      var d := if |s| > 0 && s[0] == '+' then s[1..] else s;
      |d| > 0 && (forall i :: 0 <= i < |d| ==> IsDigit(d[i])) && DigitsValue(d) < USIZE_LIMIT
  {
    var d := if |s| > 0 && s[0] == '+' then s[1..] else s;
    if |d| > 0 && (forall i :: 0 <= i < |d| ==> IsDigit(d[i])) && DigitsValue(d) < USIZE_LIMIT
    then Some(DigitsValue(d)) else Option.None
  }

  /** The index of the first field named `name` at or after `from`. */
  function FieldIndexFrom(fields: seq<Pair<string, Type>>, name: string, from: nat): (r: Option<nat>)
    ensures r.Some? ==> from <= r.value < |fields| && fields[r.value].first == name
    ensures r.Some? ==> forall j :: from <= j < r.value ==> fields[j].first != name
    ensures r.None? ==> forall j :: from <= j < |fields| ==> fields[j].first != name
    decreases |fields| - from
  {
    if from >= |fields| then Option.None
    else if fields[from].first == name then Some(from)
    else FieldIndexFrom(fields, name, from + 1)
  }

  /** The type of the first field called `name`; a missing field is an error. */
  function LookupField(fields: seq<Pair<string, Type>>, name: string): (r: Res<Type>)
    ensures r.Success? <==> exists i :: 0 <= i < |fields| && fields[i].first == name
    ensures r.Success? ==> exists i :: 0 <= i < |fields| && fields[i].first == name && r.value == fields[i].second &&
                                       forall j :: 0 <= j < i ==> fields[j].first != name
    ensures r.Failure? ==> r.error == NoSuchField
  {
    match FieldIndexFrom(fields, name, 0)
    case Some(i) => Success(fields[i].second)
    case None => Failure(NoSuchField)
  }

  /**
   * `get_field_type`, with the `unwrap()` of its callers folded in: the type of
   * field `name` of `t`.  Tagged and aligned types are looked through, a
   * product is indexed by the decimal field name, an aggregate gives its first
   * field of that name, a `Named` aggregate (or opaque aggregate) is taken
   * from the aggregate map, and any other `Named` type from the type map.
   * `visited` holds the names already followed, so a cycle is an error
   * rather than endless recursion.
   */
  function GetFieldType(ts: TypeState, t: Type, name: string, visited: set<Path>): (r: Res<Type>)
    decreases ts.tys.Keys - visited, t
  {
    match t
    case TaggedType(_, inner) => GetFieldType(ts, inner, name, visited)
    case Aligned(_, inner) => GetFieldType(ts, inner, name, visited)
    case Product(elems) =>
      (match ParseUsize(name)
       case None => Failure(BadTupleFieldName)
       case Some(v) => if v < |elems| then Success(elems[v]) else Failure(TupleIndexOutOfRange))
    case Aggregate(defn) => LookupField(defn.fields, name)
    case Named(p) =>
      if p in ts.aggregate then
        (match ts.aggregate[p]
         case None => Failure(OpaqueAggregateField)
         case Some(defn) => LookupField(defn.fields, name))
      else if p !in ts.tys then Failure(UnknownName)
      else if p in visited then Failure(CyclicNamedType)
      else
        assert ts.tys.Keys - (visited + {p}) < ts.tys.Keys - visited;
        GetFieldType(ts, ts.tys[p], name, visited + {p})
    case _ => Failure(NotAnAggregate)
  }

  function FieldType(ts: TypeState, t: Type, name: string): Res<Type> {
    GetFieldType(ts, t, name, {})
  }

  // --------------------------------------------------------- check_unify

  /** Scalar kinds unify when they agree on the one attribute each compares. */
  predicate KindsUnify(k1: ScalarTypeKind, k2: ScalarTypeKind) {
    match (k1, k2)
    case (Integer(s1, _, _), Integer(s2, _, _)) => s1 == s2
    case (Fixed(f1), Fixed(f2)) => f1 == f2
    case (Char(c1), Char(c2)) => c1 == c2
    case (Float(d1), Float(d2)) => d1 == d2
    case (LongFloat, LongFloat) => true
    case _ => false
  }

  predicate ScalarsUnify(s1: ScalarType, s2: ScalarType) {
    s1.header.bitsize == s2.header.bitsize &&
    s1.header.vectorsize == s2.header.vectorsize &&
    KindsUnify(s1.kind, s2.kind)
  }

  /** The fuel left for the children of `t1` and `t2`, or `None` when a resolution has exhausted it. */
  function ChildFuel(ts: TypeState, t1: Type, t2: Type, fuel: nat): (r: Option<nat>)
    ensures r.Some? ==> r.value <= fuel
    ensures r.Some? && (Resolves(ts, t1) || Resolves(ts, t2)) ==> r.value < fuel
    ensures r.None? <==> (Resolves(ts, t1) || Resolves(ts, t2)) && fuel == 0
  {
    if Resolves(ts, t1) || Resolves(ts, t2) then
      if fuel == 0 then Option.None else Some(fuel - 1)
    else Some(fuel)
  }

  /**
   * `check_unify`: both sides are resolved one step; `Null` unifies with
   * anything; scalars must agree on bit size, vector size and kind; function
   * types on tag, variadic flag and parameter count before their parameters
   * and return types unify; pointers unify by their pointees only; products
   * unify pairwise without a length check; aggregates agree on kind and
   * annotations and unify field by field (types before names); arrays need
   * integer lengths with unifying scalar types and equal values; two `Named`
   * types need equal paths; anything else is a mismatch.
   */
  function CheckUnify(ts: TypeState, t1: Type, t2: Type, fuel: nat): (r: Res<()>)
    decreases fuel, t1, 1, 0
  {
    var r1 := RefiyType(ts, t1);
    var r2 := RefiyType(ts, t2);
    if r1.Null? || r2.Null? then Ok
    else UnifyResolved(ts, t1, t2, r1, r2, fuel)
  }

  /** `check_unify` once both sides are resolved and neither is `Null`. */
  function UnifyResolved(ts: TypeState, t1: Type, t2: Type, r1: Type, r2: Type, fuel: nat): (r: Res<()>)
    requires r1 == RefiyType(ts, t1) && r2 == RefiyType(ts, t2)
    decreases fuel, t1, 0, 0
  {
    match r1
    case Scalar(s1) => if r2.Scalar? && ScalarsUnify(s1, r2.scalar) then Ok else Failure(TypeMismatch)
    case FnType(f1) =>
      if !r2.FnType? then Failure(TypeMismatch)
      else
        var f2 := r2.fnTy;
        if f1.tag != f2.tag || f1.variadic != f2.variadic || |f1.params| != |f2.params| then Failure(TypeMismatch)
        else
          (match ChildFuel(ts, t1, t2, fuel)
           case None => Failure(DepthExceeded)
           case Some(f) =>
             var _ :- UnifyAll(ts, f1.params, f2.params, f);
             CheckUnify(ts, f1.ret, f2.ret, f))
    case Pointer(p1) =>
      if !r2.Pointer? then Failure(TypeMismatch)
      else
        (match ChildFuel(ts, t1, t2, fuel)
         case None => Failure(DepthExceeded)
         case Some(f) => CheckUnify(ts, p1.pointee, r2.ptr.pointee, f))
    case Product(xs) =>
      if !r2.Product? then Failure(TypeMismatch)
      else
        (match ChildFuel(ts, t1, t2, fuel)
         case None => Failure(DepthExceeded)
         case Some(f) => UnifyAll(ts, xs, r2.elems, f))
    case Aggregate(d1) =>
      if !r2.Aggregate? then Failure(TypeMismatch)
      else
        var d2 := r2.defn;
        if d1.kind != d2.kind || d1.annotations != d2.annotations then Failure(TypeMismatch)
        else
          (match ChildFuel(ts, t1, t2, fuel)
           case None => Failure(DepthExceeded)
           case Some(f) => UnifyFields(ts, d1, d2, 0, f))
    case Array(a1) =>
      if !r2.Array? then Failure(TypeMismatch)
      else
        (match (a1.len, r2.arr.len)
         case (Integer(s1, v1), Integer(s2, v2)) =>
           if ScalarsUnify(s1, s2) && v1 == v2 then Ok else Failure(TypeMismatch)
         case _ => Failure(TypeMismatch))
    case Named(p1) => if r2.Named? && r2.path == p1 then Ok else Failure(TypeMismatch)
    case _ => Failure(TypeMismatch)
  }

  /** Pairwise unification of two type lists, stopping at the shorter (`zip`). */
  function UnifyAll(ts: TypeState, xs: seq<Type>, ys: seq<Type>, fuel: nat): (r: Res<()>)
    decreases fuel, xs, 0, 0
  {
    if xs == [] || ys == [] then Ok
    else
      var _ :- CheckUnify(ts, xs[0], ys[0], fuel);
      UnifyAll(ts, xs[1..], ys[1..], fuel)
  }

  /** Field-by-field unification of two aggregates from field `i` on, stopping at the shorter. */
  function UnifyFields(ts: TypeState, d1: AggregateDefinition, d2: AggregateDefinition, i: nat, fuel: nat): (r: Res<()>)
    decreases fuel, d1, 0, |d1.fields| - i
  {
    if i >= |d1.fields| || i >= |d2.fields| then Ok
    else
      var _ :- CheckUnify(ts, d1.fields[i].second, d2.fields[i].second, fuel);
      if d1.fields[i].first != d2.fields[i].first then Failure(TypeMismatch)
      else UnifyFields(ts, d1, d2, i + 1, fuel)
  }

  // --------------------------------------------------- check_unify_stack

  /**
   * Pairwise kind check and unification of stack items, stopping at the
   * shorter; a kind mismatch is reported as `kindError`.
   */
  function UnifyItems(ts: TypeState, xs: seq<StackItem>, ys: seq<StackItem>, fuel: nat, kindError: Error): (r: Res<()>)
    decreases |xs|
  {
    if xs == [] || ys == [] then Ok
    else if xs[0].kind != ys[0].kind then Failure(kindError)
    else
      var _ :- CheckUnify(ts, xs[0].ty, ys[0].ty, fuel);
      UnifyItems(ts, xs[1..], ys[1..], fuel, kindError)
  }

  /**
   * `check_unify_stack`: the top `|target|` items of `stack` must match
   * `target` item by item, in kind and type; items below are not looked at.
   */
  function CheckUnifyStack(ts: TypeState, stack: seq<StackItem>, target: seq<StackItem>, fuel: nat): (r: Res<()>)
  {
    if |stack| < |target| then Failure(StackUnderflow)
    else UnifyItems(ts, stack[|stack| - |target|..], target, fuel, StackItemMismatch)
  }
}
