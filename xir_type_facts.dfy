/**
 * Properties of the validator's type layer: unification is symmetric, every
 * well-formed type unifies with itself, `Null` is a wildcard, pointer
 * metadata and integer bounds are ignored, products do not compare lengths,
 * stack unification looks only at the top of the stack, and field lookup
 * on products inverts the decimal rendering of an index.
 */
module XirTypeFacts {
  import opened Wrappers
  import opened Prim
  import opened Ir
  import opened XirTypes

  // ------------------------------------------------------------ symmetry

  lemma KindsUnifySymmetric(k1: ScalarTypeKind, k2: ScalarTypeKind)
    ensures KindsUnify(k1, k2) == KindsUnify(k2, k1)
  {
  }

  /** Unification does not depend on the order of its operands, error included. */
  lemma {:induction false} UnifySymmetric(ts: TypeState, a: Type, b: Type, fuel: nat)
    ensures CheckUnify(ts, a, b, fuel) == CheckUnify(ts, b, a, fuel)
    decreases fuel, a, 1, 0
  {
    var ra, rb := RefiyType(ts, a), RefiyType(ts, b);
    if ra.Null? || rb.Null? {
    } else if ra.Scalar? && rb.Scalar? {
      KindsUnifySymmetric(ra.scalar.kind, rb.scalar.kind);
    } else if ra.FnType? && rb.FnType? {
      FnTypesSymmetric(ts, a, b, fuel);
    } else if ra.Pointer? && rb.Pointer? {
      PointersSymmetric(ts, a, b, fuel);
    } else if ra.Product? && rb.Product? {
      ProductsSymmetric(ts, a, b, fuel);
    } else if ra.Aggregate? && rb.Aggregate? {
      AggregatesSymmetric(ts, a, b, fuel);
    } else {
      OtherShapesSymmetric(ts, a, b, fuel);
    }
  }

  lemma OtherShapesSymmetric(ts: TypeState, a: Type, b: Type, fuel: nat)
    requires !RefiyType(ts, a).Null? && !RefiyType(ts, b).Null?
    requires !(RefiyType(ts, a).Scalar? && RefiyType(ts, b).Scalar?) && !(RefiyType(ts, a).FnType? && RefiyType(ts, b).FnType?)
    requires !(RefiyType(ts, a).Pointer? && RefiyType(ts, b).Pointer?) && !(RefiyType(ts, a).Product? && RefiyType(ts, b).Product?)
    requires !(RefiyType(ts, a).Aggregate? && RefiyType(ts, b).Aggregate?)
    ensures CheckUnify(ts, a, b, fuel) == CheckUnify(ts, b, a, fuel)
  {
  }

  lemma {:induction false} PointersSymmetric(ts: TypeState, a: Type, b: Type, fuel: nat)
    requires RefiyType(ts, a).Pointer? && RefiyType(ts, b).Pointer?
    ensures CheckUnify(ts, a, b, fuel) == CheckUnify(ts, b, a, fuel)
    decreases fuel, a, 0, 0
  {
    match ChildFuel(ts, a, b, fuel)
    case None =>
    case Some(f) => UnifySymmetric(ts, RefiyType(ts, a).ptr.pointee, RefiyType(ts, b).ptr.pointee, f);
  }

  lemma {:induction false} ProductsSymmetric(ts: TypeState, a: Type, b: Type, fuel: nat)
    requires RefiyType(ts, a).Product? && RefiyType(ts, b).Product?
    ensures CheckUnify(ts, a, b, fuel) == CheckUnify(ts, b, a, fuel)
    decreases fuel, a, 0, 0
  {
    match ChildFuel(ts, a, b, fuel)
    case None =>
    case Some(f) => UnifyAllSymmetric(ts, RefiyType(ts, a).elems, RefiyType(ts, b).elems, f);
  }

  lemma {:induction false} FnTypesSymmetric(ts: TypeState, a: Type, b: Type, fuel: nat)
    requires RefiyType(ts, a).FnType? && RefiyType(ts, b).FnType?
    ensures CheckUnify(ts, a, b, fuel) == CheckUnify(ts, b, a, fuel)
    decreases fuel, a, 0, 0
  {
    var f1, f2 := RefiyType(ts, a).fnTy, RefiyType(ts, b).fnTy;
    if f1.tag == f2.tag && f1.variadic == f2.variadic && |f1.params| == |f2.params| {
      match ChildFuel(ts, a, b, fuel)
      case None =>
      case Some(f) =>
        UnifyAllSymmetric(ts, f1.params, f2.params, f);
        UnifySymmetric(ts, f1.ret, f2.ret, f);
    }
  }

  lemma {:induction false} AggregatesSymmetric(ts: TypeState, a: Type, b: Type, fuel: nat)
    requires RefiyType(ts, a).Aggregate? && RefiyType(ts, b).Aggregate?
    ensures CheckUnify(ts, a, b, fuel) == CheckUnify(ts, b, a, fuel)
    decreases fuel, a, 0, 0
  {
    var d1, d2 := RefiyType(ts, a).defn, RefiyType(ts, b).defn;
    if d1.kind == d2.kind && d1.annotations == d2.annotations {
      match ChildFuel(ts, a, b, fuel)
      case None =>
      case Some(f) => UnifyFieldsSymmetric(ts, d1, d2, 0, f);
    }
  }

  lemma {:induction false} UnifyAllSymmetric(ts: TypeState, xs: seq<Type>, ys: seq<Type>, fuel: nat)
    ensures UnifyAll(ts, xs, ys, fuel) == UnifyAll(ts, ys, xs, fuel)
    decreases fuel, xs, 0, 0
  {
    if xs != [] && ys != [] {
      UnifySymmetric(ts, xs[0], ys[0], fuel);
      UnifyAllSymmetric(ts, xs[1..], ys[1..], fuel);
    }
  }

  lemma {:induction false} UnifyFieldsSymmetric(ts: TypeState, d1: AggregateDefinition, d2: AggregateDefinition, i: nat, fuel: nat)
    ensures UnifyFields(ts, d1, d2, i, fuel) == UnifyFields(ts, d2, d1, i, fuel)
    decreases fuel, d1, 0, |d1.fields| - i
  {
    if i < |d1.fields| && i < |d2.fields| {
      UnifySymmetric(ts, d1.fields[i].second, d2.fields[i].second, fuel);
      UnifyFieldsSymmetric(ts, d1, d2, i + 1, fuel);
    }
  }

  // --------------------------------------------------------- reflexivity

  /**
   * Types that unify with themselves without consulting the type map: no
   * `Void`, no scalar of kind `Empty`, array lengths that are integer
   * constants of a non-empty kind, no `Named` type the map resolves, and
   * no wrapper directly around another wrapper.
   */
  predicate SelfUnifiable(ts: TypeState, t: Type)
    decreases t, 1, 0
  {
    match t
    case Null => true
    case Scalar(s) => !s.kind.Empty?
    case Void => false
    case FnType(f) => AllSelfUnifiable(ts, f.params) && SelfUnifiable(ts, f.ret)
    case Pointer(p) => SelfUnifiable(ts, p.pointee)
    case Named(p) => p !in ts.tys
    case Aggregate(d) => FieldsSelfUnifiable(ts, d, 0)
    case Product(xs) => AllSelfUnifiable(ts, xs)
    case Array(a) => a.len.Integer? && !a.len.intTy.kind.Empty?
    case TaggedType(_, inner) => !inner.TaggedType? && !inner.Aligned? && SelfUnifiable(ts, inner)
    case Aligned(_, inner) => !inner.TaggedType? && !inner.Aligned? && SelfUnifiable(ts, inner)
  }

  predicate AllSelfUnifiable(ts: TypeState, xs: seq<Type>)
    decreases xs, 0, 0
  {
    xs == [] || (SelfUnifiable(ts, xs[0]) && AllSelfUnifiable(ts, xs[1..]))
  }

  predicate FieldsSelfUnifiable(ts: TypeState, d: AggregateDefinition, i: nat)
    decreases d, 0, |d.fields| - i
  {
    i >= |d.fields| || (SelfUnifiable(ts, d.fields[i].second) && FieldsSelfUnifiable(ts, d, i + 1))
  }

  /** Every self-unifiable type unifies with itself, whatever the fuel. */
  lemma {:induction false} UnifyReflexive(ts: TypeState, t: Type, fuel: nat)
    requires SelfUnifiable(ts, t)
    ensures CheckUnify(ts, t, t, fuel) == Ok
    decreases t, 1, 0
  {
    var r := RefiyType(ts, t);
    assert ChildFuel(ts, t, t, fuel) == Some(fuel);
    match r
    case FnType(f) =>
      UnifyAllReflexive(ts, f.params, fuel);
      UnifyReflexive(ts, f.ret, fuel);
    case Pointer(p) => UnifyReflexive(ts, p.pointee, fuel);
    case Product(xs) => UnifyAllReflexive(ts, xs, fuel);
    case Aggregate(d) => UnifyFieldsReflexive(ts, d, 0, fuel);
    case _ =>
  }

  lemma {:induction false} UnifyAllReflexive(ts: TypeState, xs: seq<Type>, fuel: nat)
    requires AllSelfUnifiable(ts, xs)
    ensures UnifyAll(ts, xs, xs, fuel) == Ok
    decreases xs, 0, 0
  {
    if xs != [] {
      UnifyReflexive(ts, xs[0], fuel);
      UnifyAllReflexive(ts, xs[1..], fuel);
    }
  }

  lemma {:induction false} UnifyFieldsReflexive(ts: TypeState, d: AggregateDefinition, i: nat, fuel: nat)
    requires FieldsSelfUnifiable(ts, d, i)
    ensures UnifyFields(ts, d, d, i, fuel) == Ok
    decreases d, 0, |d.fields| - i
  {
    if i < |d.fields| {
      UnifyReflexive(ts, d.fields[i].second, fuel);
      UnifyFieldsReflexive(ts, d, i + 1, fuel);
    }
  }

  // ------------------------------------------------------ fuel is a bound

  /** More fuel never changes an answer that was reached without running out. */
  lemma {:induction false} UnifyFuelMonotone(ts: TypeState, a: Type, b: Type, f: nat, g: nat)
    requires f <= g && CheckUnify(ts, a, b, f) != Failure(DepthExceeded)
    ensures CheckUnify(ts, a, b, g) == CheckUnify(ts, a, b, f)
    decreases f, a, 1, 0
  {
    var ra, rb := RefiyType(ts, a), RefiyType(ts, b);
    if ra.Null? || rb.Null? {
    } else if ra.FnType? && rb.FnType? {
      FnTypesFuelMonotone(ts, a, b, f, g);
    } else if ra.Pointer? && rb.Pointer? {
      PointersFuelMonotone(ts, a, b, f, g);
    } else if ra.Product? && rb.Product? {
      ProductsFuelMonotone(ts, a, b, f, g);
    } else if ra.Aggregate? && rb.Aggregate? {
      AggregatesFuelMonotone(ts, a, b, f, g);
    } else {
      OtherShapesFuelFree(ts, a, b, f, g);
    }
  }

  /** Outside function types, pointers, products and aggregates, unification does not look at its fuel. */
  lemma OtherShapesFuelFree(ts: TypeState, a: Type, b: Type, f: nat, g: nat)
    requires !RefiyType(ts, a).Null? && !RefiyType(ts, b).Null?
    requires !(RefiyType(ts, a).FnType? && RefiyType(ts, b).FnType?) && !(RefiyType(ts, a).Pointer? && RefiyType(ts, b).Pointer?)
    requires !(RefiyType(ts, a).Product? && RefiyType(ts, b).Product?) && !(RefiyType(ts, a).Aggregate? && RefiyType(ts, b).Aggregate?)
    ensures CheckUnify(ts, a, b, g) == CheckUnify(ts, a, b, f)
  {
  }

  lemma {:induction false} PointersFuelMonotone(ts: TypeState, a: Type, b: Type, f: nat, g: nat)
    requires f <= g && CheckUnify(ts, a, b, f) != Failure(DepthExceeded)
    requires RefiyType(ts, a).Pointer? && RefiyType(ts, b).Pointer?
    ensures CheckUnify(ts, a, b, g) == CheckUnify(ts, a, b, f)
    decreases f, a, 0, 0
  {
    UnifyFuelMonotone(ts, RefiyType(ts, a).ptr.pointee, RefiyType(ts, b).ptr.pointee, ChildFuel(ts, a, b, f).value, ChildFuel(ts, a, b, g).value);
  }

  lemma {:induction false} ProductsFuelMonotone(ts: TypeState, a: Type, b: Type, f: nat, g: nat)
    requires f <= g && CheckUnify(ts, a, b, f) != Failure(DepthExceeded)
    requires RefiyType(ts, a).Product? && RefiyType(ts, b).Product?
    ensures CheckUnify(ts, a, b, g) == CheckUnify(ts, a, b, f)
    decreases f, a, 0, 0
  {
    UnifyAllFuelMonotone(ts, RefiyType(ts, a).elems, RefiyType(ts, b).elems, ChildFuel(ts, a, b, f).value, ChildFuel(ts, a, b, g).value);
  }

  lemma {:induction false} AggregatesFuelMonotone(ts: TypeState, a: Type, b: Type, f: nat, g: nat)
    requires f <= g && CheckUnify(ts, a, b, f) != Failure(DepthExceeded)
    requires RefiyType(ts, a).Aggregate? && RefiyType(ts, b).Aggregate?
    ensures CheckUnify(ts, a, b, g) == CheckUnify(ts, a, b, f)
    decreases f, a, 0, 0
  {
    var d1, d2 := RefiyType(ts, a).defn, RefiyType(ts, b).defn;
    if d1.kind == d2.kind && d1.annotations == d2.annotations {
      UnifyFieldsFuelMonotone(ts, d1, d2, 0, ChildFuel(ts, a, b, f).value, ChildFuel(ts, a, b, g).value);
    }
  }

  /** The function-type case of `UnifyFuelMonotone`. */
  lemma {:induction false} FnTypesFuelMonotone(ts: TypeState, a: Type, b: Type, f: nat, g: nat)
    requires f <= g && CheckUnify(ts, a, b, f) != Failure(DepthExceeded)
    requires RefiyType(ts, a).FnType? && RefiyType(ts, b).FnType?
    ensures CheckUnify(ts, a, b, g) == CheckUnify(ts, a, b, f)
    decreases f, a, 0, 0
  {
    var f1, f2 := RefiyType(ts, a).fnTy, RefiyType(ts, b).fnTy;
    if f1.tag == f2.tag && f1.variadic == f2.variadic && |f1.params| == |f2.params| {
      var cf, cg := ChildFuel(ts, a, b, f).value, ChildFuel(ts, a, b, g).value;
      UnifyAllFuelMonotone(ts, f1.params, f2.params, cf, cg);
      if UnifyAll(ts, f1.params, f2.params, cf).Success? {
        UnifyFuelMonotone(ts, f1.ret, f2.ret, cf, cg);
      }
    }
  }

  lemma {:induction false} UnifyAllFuelMonotone(ts: TypeState, xs: seq<Type>, ys: seq<Type>, f: nat, g: nat)
    requires f <= g && UnifyAll(ts, xs, ys, f) != Failure(DepthExceeded)
    ensures UnifyAll(ts, xs, ys, g) == UnifyAll(ts, xs, ys, f)
    decreases f, xs, 0, 0
  {
    if xs != [] && ys != [] {
      UnifyFuelMonotone(ts, xs[0], ys[0], f, g);
      if CheckUnify(ts, xs[0], ys[0], f).Success? {
        UnifyAllFuelMonotone(ts, xs[1..], ys[1..], f, g);
      }
    }
  }

  lemma {:induction false} UnifyFieldsFuelMonotone(ts: TypeState, d1: AggregateDefinition, d2: AggregateDefinition, i: nat, f: nat, g: nat)
    requires f <= g && UnifyFields(ts, d1, d2, i, f) != Failure(DepthExceeded)
    ensures UnifyFields(ts, d1, d2, i, g) == UnifyFields(ts, d1, d2, i, f)
    decreases f, d1, 0, |d1.fields| - i
  {
    if i < |d1.fields| && i < |d2.fields| {
      UnifyFuelMonotone(ts, d1.fields[i].second, d2.fields[i].second, f, g);
      if CheckUnify(ts, d1.fields[i].second, d2.fields[i].second, f).Success? && d1.fields[i].first == d2.fields[i].first {
        UnifyFieldsFuelMonotone(ts, d1, d2, i + 1, f, g);
      }
    }
  }

  // ------------------------------------------------- individual rules

  /** `Null` unifies with anything, on either side. */
  lemma UnifyNullWildcard(ts: TypeState, t: Type, fuel: nat)
    ensures CheckUnify(ts, Type.Null, t, fuel) == Ok
    ensures CheckUnify(ts, t, Type.Null, fuel) == Ok
  {
  }

  /** `Void` does not even unify with itself: no rule covers it. */
  lemma VoidNeverUnifies(ts: TypeState, fuel: nat)
    ensures CheckUnify(ts, Void, Void, fuel) == Failure(TypeMismatch)
  {
  }

  /** Pointers unify exactly when their pointees do; aliasing, range and declaration metadata are ignored. */
  lemma PointerUnifyIgnoresMetadata(ts: TypeState, p1: PointerType, p2: PointerType, fuel: nat)
    ensures CheckUnify(ts, Type.Pointer(p1), Type.Pointer(p2), fuel) == CheckUnify(ts, p1.pointee, p2.pointee, fuel)
  {
  }

  /** Integers unify exactly when bit size, vector size and signedness agree; their bounds are ignored. */
  lemma IntegerUnifyRule(ts: TypeState, h1: ScalarTypeHeader, h2: ScalarTypeHeader,
                         s1: bool, s2: bool, lo1: Option<i128>, hi1: Option<i128>, lo2: Option<i128>, hi2: Option<i128>, fuel: nat)
    ensures var t1 := Type.Scalar(ScalarType(h1, ScalarTypeKind.Integer(s1, lo1, hi1)));
            var t2 := Type.Scalar(ScalarType(h2, ScalarTypeKind.Integer(s2, lo2, hi2)));
            CheckUnify(ts, t1, t2, fuel).Success? <==>
              h1.bitsize == h2.bitsize && h1.vectorsize == h2.vectorsize && s1 == s2
  {
  }

  /** Scalars of the default (`Empty`) kind unify with nothing, not even themselves. */
  lemma EmptyScalarNeverUnifies(ts: TypeState, s: ScalarType, t: Type, fuel: nat)
    requires s.kind.Empty? && !RefiyType(ts, t).Null?
    ensures CheckUnify(ts, Type.Scalar(s), t, fuel) == Failure(TypeMismatch)
  {
  }

  /** Products are zipped: a shorter product unifies with any longer one that agrees on the common prefix. */
  lemma {:induction false} ProductPrefixUnifies(ts: TypeState, xs: seq<Type>, extra: seq<Type>, fuel: nat)
    requires AllSelfUnifiable(ts, xs)
    ensures CheckUnify(ts, Type.Product(xs), Type.Product(xs + extra), fuel) == Ok
  {
    UnifyAllPrefix(ts, xs, extra, fuel);
  }

  lemma {:induction false} UnifyAllPrefix(ts: TypeState, xs: seq<Type>, extra: seq<Type>, fuel: nat)
    requires AllSelfUnifiable(ts, xs)
    ensures UnifyAll(ts, xs, xs + extra, fuel) == Ok
    decreases xs
  {
    if xs != [] {
      UnifyReflexive(ts, xs[0], fuel);
      assert (xs + extra)[1..] == xs[1..] + extra;
      UnifyAllPrefix(ts, xs[1..], extra, fuel);
    }
  }

  /** Resolution strips only one wrapper: two doubly tagged copies of a type never unify. */
  lemma NestedWrappersDoNotUnify(ts: TypeState, tag1: u16, tag2: u16, t: Type, fuel: nat)
    ensures var w := Type.TaggedType(tag1, Type.TaggedType(tag2, t));
            CheckUnify(ts, w, w, fuel) == Failure(TypeMismatch)
  {
  }

  /** Resolution is one level deep: a name defined as another name is compared by path, not followed further. */
  lemma NamedResolvesOneLevel(fuel: nat)
    ensures var a, b := Path([Text("A")]), Path([Text("B")]);
            var int32 := Type.Scalar(IntScalar(32, true));
            var ts := TypeState(map[a := Type.Named(b), b := int32], map[]);
            CheckUnify(ts, Type.Named(a), int32, fuel) == Failure(TypeMismatch) &&
            CheckUnify(ts, Type.Named(b), int32, fuel) == Ok
  {
  }

  // ------------------------------------------------------------- stacks

  lemma {:induction false} UnifyItemsKinds(ts: TypeState, xs: seq<StackItem>, ys: seq<StackItem>, fuel: nat, kindError: Error)
    requires |xs| == |ys| && UnifyItems(ts, xs, ys, fuel, kindError).Success?
    ensures forall i :: 0 <= i < |ys| ==> xs[i].kind == ys[i].kind
    decreases |xs|
  {
    if xs != [] {
      UnifyItemsKinds(ts, xs[1..], ys[1..], fuel, kindError);
      forall i | 0 <= i < |ys|
        ensures xs[i].kind == ys[i].kind
      {
        if i > 0 {
          assert xs[i] == xs[1..][i - 1] && ys[i] == ys[1..][i - 1];
        }
      }
    }
  }

  /** A successful stack unification means the stack is deep enough and its top matches the target's kinds. */
  lemma StackUnifyKinds(ts: TypeState, stack: seq<StackItem>, target: seq<StackItem>, fuel: nat)
    requires CheckUnifyStack(ts, stack, target, fuel).Success?
    ensures |stack| >= |target|
    ensures forall i :: 0 <= i < |target| ==> stack[|stack| - |target| + i].kind == target[i].kind
  {
    var top := stack[|stack| - |target|..];
    UnifyItemsKinds(ts, top, target, fuel, StackItemMismatch);
    assert forall i :: 0 <= i < |target| ==> stack[|stack| - |target| + i] == top[i];
  }

  /** Item-wise unification succeeds exactly when, up to the shorter sequence, every pair agrees in kind and its types unify. */
  lemma {:induction false} UnifyItemsPairwise(ts: TypeState, xs: seq<StackItem>, ys: seq<StackItem>, fuel: nat, kindError: Error)
    ensures UnifyItems(ts, xs, ys, fuel, kindError).Success? <==>
      forall i :: 0 <= i < |xs| && i < |ys| ==>
        xs[i].kind == ys[i].kind && CheckUnify(ts, xs[i].ty, ys[i].ty, fuel).Success?
    decreases |xs|
  {
    if xs != [] && ys != [] {
      UnifyItemsPairwise(ts, xs[1..], ys[1..], fuel, kindError);
      assert forall i :: 1 <= i < |xs| && i < |ys| ==> xs[i] == xs[1..][i - 1] && ys[i] == ys[1..][i - 1];
    }
  }

  /** Stack unification succeeds exactly when the stack is deep enough and each of its top items agrees with the target's item at the same position. */
  lemma StackUnifyPairwise(ts: TypeState, stack: seq<StackItem>, target: seq<StackItem>, fuel: nat)
    ensures CheckUnifyStack(ts, stack, target, fuel).Success? <==>
      |stack| >= |target| &&
      forall i :: 0 <= i < |target| ==>
        stack[|stack| - |target| + i].kind == target[i].kind &&
        CheckUnify(ts, stack[|stack| - |target| + i].ty, target[i].ty, fuel).Success?
  {
    if |stack| >= |target| {
      var top := stack[|stack| - |target|..];
      UnifyItemsPairwise(ts, top, target, fuel, StackItemMismatch);
      assert forall i :: 0 <= i < |target| ==> stack[|stack| - |target| + i] == top[i];
    }
  }

  /** Type-list unification succeeds exactly when every pair, up to the shorter list, unifies. */
  lemma {:induction false} UnifyAllPairwise(ts: TypeState, xs: seq<Type>, ys: seq<Type>, fuel: nat)
    ensures UnifyAll(ts, xs, ys, fuel).Success? <==>
      forall i :: 0 <= i < |xs| && i < |ys| ==> CheckUnify(ts, xs[i], ys[i], fuel).Success?
    decreases |xs|
  {
    if xs != [] && ys != [] {
      UnifyAllPairwise(ts, xs[1..], ys[1..], fuel);
      assert forall i :: 1 <= i < |xs| && i < |ys| ==> xs[i] == xs[1..][i - 1] && ys[i] == ys[1..][i - 1];
    }
  }

  /** Items below the top `|target|` are not examined. */
  lemma StackUnifyIgnoresBelow(ts: TypeState, below: seq<StackItem>, top: seq<StackItem>, target: seq<StackItem>, fuel: nat)
    requires |top| == |target|
    ensures CheckUnifyStack(ts, below + top, target, fuel) == CheckUnifyStack(ts, top, target, fuel)
  {
    assert (below + top)[|below + top| - |target|..] == top;
    assert top[|top| - |target|..] == top;
  }

  // ---------------------------------------------------- field lookup

  function DigitChar(d: nat): (c: char)
    requires d < 10
    ensures IsDigit(c)
  {
    ('0' as int + d) as char
  }

  /** The decimal rendering of `n` (Rust's `Display` for `usize`). */
  function Decimal(n: nat): (s: string)
    ensures |s| > 0 && forall i :: 0 <= i < |s| ==> IsDigit(s[i])
    decreases n
  {
    if n < 10 then [DigitChar(n)] else Decimal(n / 10) + [DigitChar(n % 10)]
  }

  lemma {:induction false} DecimalValue(n: nat)
    ensures DigitsValue(Decimal(n)) == n
    decreases n
  {
    if n >= 10 {
      DecimalValue(n / 10);
      var s := Decimal(n);
      assert s[..|s| - 1] == Decimal(n / 10);
    }
  }

  /** Parsing the decimal rendering of an index gives the index back. */
  lemma ParseDecimal(n: nat)
    requires n < USIZE_LIMIT
    ensures ParseUsize(Decimal(n)) == Some(n)
  {
    DecimalValue(n);
  }

  /** Field `"i"` of a product is its `i`-th element; the index must be in range. */
  lemma ProductFieldByIndex(ts: TypeState, elems: seq<Type>, i: nat)
    requires i < USIZE_LIMIT
    ensures FieldType(ts, Type.Product(elems), Decimal(i)) ==
            if i < |elems| then Success(elems[i]) else Failure(TupleIndexOutOfRange)
  {
    ParseDecimal(i);
  }

  /** A name present in the aggregate map is looked up there; the type map is not consulted. */
  lemma AggregateMapWins(ts: TypeState, p: Path, name: string)
    requires p in ts.aggregate && ts.aggregate[p].Some?
    ensures FieldType(ts, Type.Named(p), name) == LookupField(ts.aggregate[p].value.fields, name)
  {
  }

  /** A name defined as itself is reported as a cycle instead of recursing forever. */
  lemma SelfNamedFieldIsCyclic(name: string)
    ensures var a := Path([Text("A")]);
            FieldType(TypeState(map[a := Type.Named(a)], map[]), Type.Named(a), name) == Failure(CyclicNamedType)
  {
  }
}
