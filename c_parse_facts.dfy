/**
 * Properties of the C parser's specification functions: what a type
 * spelling may contain, where an expression stops, how calls and argument
 * lists are read, how pointers are built, and where the parser loops.
 */
module CParseFacts {
  import opened Wrappers
  import opened CParse

  // ------------------------------------------------------------ types

  /** A keyword `parse_type` consumes. */
  predicate TypeWord(t: Token) {
    t == Keyword("char") || t == Keyword("const") || t == Keyword("int")
  }

  /** A keyword naming a base type. */
  predicate BaseWord(t: Token) {
    t == Keyword("char") || t == Keyword("int")
  }

  function BaseCount(s: seq<Token>): nat {
    if s == [] then 0 else (if BaseWord(s[0]) then 1 else 0) + BaseCount(s[1..])
  }

  /** The base already gathered, as a count. */
  function Gathered(base: Option<PrimitiveType>): nat {
    if base.Some? then 1 else 0
  }

  /**
   * The tokens `toks[p..q]` spell a type, given `base` and `constant`
   * gathered before them, and the token at `q` ends it.
   */
  predicate SpellsType(toks: seq<Token>, p: nat, q: nat, base: Option<PrimitiveType>)
    requires p <= q <= |toks|
  {
    var seg := toks[p..q];
    (forall i | p <= i < q :: TypeWord(toks[i]))
    && BaseCount(seg) + Gathered(base) <= 1
    && (q == |toks| || toks[q].Punctuator? || (toks[q].Identifier? && BaseCount(seg) + Gathered(base) == 1))
  }

  /** The type spelled by `seg` after `base` and `constant`. */
  function SpelledType(seg: seq<Token>, base: Option<PrimitiveType>, constant: bool): Type {
    Type(Primitive(if Keyword("char") in seg then Char else base.GetOr(Int)), constant || Keyword("const") in seg)
  }

  /** The base gathered after reading the type word `t0` on top of `base`. */
  function NextBase(t0: Token, base: Option<PrimitiveType>): Option<PrimitiveType> {
    if t0 == Keyword("char") then Some(Char) else if t0 == Keyword("int") then Some(Int) else base
  }

  lemma SpellsTypeStep(toks: seq<Token>, p: nat, q: nat, base: Option<PrimitiveType>, constant: bool)
    requires p < q <= |toks| && TypeWord(toks[p]) && !(BaseWord(toks[p]) && base.Some?)
    ensures SpellsType(toks, p, q, base) <==> SpellsType(toks, p + 1, q, NextBase(toks[p], base))
    ensures SpelledType(toks[p..q], base, constant)
         == SpelledType(toks[p + 1..q], NextBase(toks[p], base), constant || toks[p] == Keyword("const"))
  {
    var seg := toks[p..q];
    assert seg == [toks[p]] + toks[p + 1..q];
    assert seg[1..] == toks[p + 1..q];
    assert BaseCount(seg) + Gathered(base) == BaseCount(toks[p + 1..q]) + Gathered(NextBase(toks[p], base));
  }

  lemma {:induction false} TypeLoopSpelling(toks: seq<Token>, p: nat, base: Option<PrimitiveType>, constant: bool, t: Type, q: nat)
    requires p <= |toks|
    ensures TypeLoop(toks, p, base, constant) == Parsed(t, q)
        <==> p <= q <= |toks| && SpellsType(toks, p, q, base) && t == SpelledType(toks[p..q], base, constant)
    decreases |toks| - p
  {
    if p == |toks| {
      assert toks[p..p] == [];
    } else if !TypeWord(toks[p]) {
      assert toks[p..p] == [];
      if p < q <= |toks| {
        assert !TypeWord(toks[p]);
        assert !SpellsType(toks, p, q, base);
      }
    } else if BaseWord(toks[p]) && base.Some? {
      assert TypeLoop(toks, p, base, constant) == Rejected;
      if p < q <= |toks| {
        assert toks[p..q][1..] == toks[p + 1..q];
        assert BaseCount(toks[p..q]) >= 1;
      }
    } else {
      var base' := NextBase(toks[p], base);
      var constant' := constant || toks[p] == Keyword("const");
      assert TypeLoop(toks, p, base, constant) == TypeLoop(toks, p + 1, base', constant');
      TypeLoopSpelling(toks, p + 1, base', constant', t, q);
      if p < q <= |toks| {
        SpellsTypeStep(toks, p, q, base, constant);
      }
    }
  }

  /**
   * `parse_type` reads exactly the `char`, `int` and `const` keywords in
   * front of it, at most one of them a base; it stops at a punctuator, at
   * the end, or at an identifier once a base was read, without consuming
   * it; the base is `char` when spelled and `int` otherwise, and the type is
   * constant when `const` appears.
   */
  lemma TypeAtSpelling(toks: seq<Token>, p: nat, t: Type, q: nat)
    requires p <= |toks|
    ensures TypeAt(toks, p) == Parsed(t, q)
        <==> p <= q <= |toks| && SpellsType(toks, p, q, None) && t == SpelledType(toks[p..q], None, false)
  {
    TypeLoopSpelling(toks, p, None, false, t, q);
  }

  /** A second base keyword is rejected. */
  lemma {:induction false} SecondBaseRejected(toks: seq<Token>, p: nat)
    requires p + 1 < |toks| && BaseWord(toks[p]) && BaseWord(toks[p + 1])
    ensures TypeAt(toks, p) == Rejected
  {
    var base := if toks[p] == Keyword("char") then Some(Char) else Some(Int);
    assert TypeAt(toks, p) == TypeLoop(toks, p + 1, base, false);
  }

  // ------------------------------------------------------- expressions

  /** No type is attached anywhere in `e`. */
  predicate Untyped(e: Expression) {
    e.GetType() == None &&
    match e
    case FunctionCall(callee, args, _) => Untyped(callee) && forall a | a in args :: Untyped(a)
    case _ => true
  }

  /** The parser leaves every expression's type unset. */
  lemma {:induction false} ExpressionUntyped(toks: seq<Token>, p: nat)
    requires p <= |toks|
    ensures ExpressionAt(toks, p).Parsed? ==> Untyped(ExpressionAt(toks, p).value)
    decreases |toks| - p, 0
  {
    var prim := PrimaryAt(toks, p);
    if prim.Parsed? {
      PostfixUntyped(toks, prim.rest, prim.value);
    }
  }

  lemma {:induction false} PostfixUntyped(toks: seq<Token>, p: nat, lhs: Expression)
    requires p <= |toks| && Untyped(lhs)
    ensures PostfixLoop(toks, p, lhs).Parsed? ==> Untyped(PostfixLoop(toks, p, lhs).value)
    decreases |toks| - p, 0
  {
    if p < |toks| && toks[p] == Punctuator("(") {
      var args := ArgsLoop(toks, p + 1, [], false, false);
      ArgsUntyped(toks, p + 1, [], false, false);
      if args.Parsed? {
        PostfixUntyped(toks, args.rest, Expression.FunctionCall(lhs, args.value, None));
      }
    }
  }

  lemma {:induction false} ArgsUntyped(toks: seq<Token>, p: nat, args: seq<Expression>, commaExpected: bool, trailingComma: bool)
    requires p <= |toks| && forall a | a in args :: Untyped(a)
    ensures var r := ArgsLoop(toks, p, args, commaExpected, trailingComma);
      r.Parsed? ==> forall a | a in r.value :: Untyped(a)
    decreases |toks| - p, 1
  {
    if p == |toks| || toks[p] == Punctuator(")") {
    } else if commaExpected {
      if toks[p] == Punctuator(",") {
        ArgsUntyped(toks, p + 1, args, false, true);
      }
    } else {
      var e := ExpressionAt(toks, p);
      ExpressionUntyped(toks, p);
      if e.Parsed? {
        ArgsUntyped(toks, e.rest, args + [e.value], true, false);
      }
    }
  }

  /** A token an expression stops in front of. */
  predicate StopsExpression(toks: seq<Token>, q: nat) {
    q == |toks| || (q < |toks| && toks[q] in {Punctuator(";"), Punctuator(","), Punctuator(")")})
  }

  lemma {:induction false} PostfixStops(toks: seq<Token>, p: nat, lhs: Expression)
    requires p <= |toks|
    ensures PostfixLoop(toks, p, lhs).Parsed? ==> StopsExpression(toks, PostfixLoop(toks, p, lhs).rest)
    decreases |toks| - p
  {
    if p < |toks| && toks[p] == Punctuator("(") {
      var args := ArgsLoop(toks, p + 1, [], false, false);
      if args.Parsed? {
        PostfixStops(toks, args.rest, Expression.FunctionCall(lhs, args.value, None));
      }
    }
  }

  /** An expression ends at the end of the tokens or in front of `;`, `,` or `)`, which it leaves unread. */
  lemma ExpressionStops(toks: seq<Token>, p: nat)
    requires p <= |toks|
    ensures ExpressionAt(toks, p).Parsed? ==> StopsExpression(toks, ExpressionAt(toks, p).rest)
  {
    var prim := PrimaryAt(toks, p);
    if prim.Parsed? {
      PostfixStops(toks, prim.rest, prim.value);
    }
  }

  /** An argument list that ends before the tokens do ends with the `)` it consumed. */
  lemma {:induction false} ArgsClose(toks: seq<Token>, p: nat, args: seq<Expression>, commaExpected: bool, trailingComma: bool)
    requires p <= |toks|
    ensures var r := ArgsLoop(toks, p, args, commaExpected, trailingComma);
      r.Parsed? && r.rest < |toks| ==> p < r.rest && toks[r.rest - 1] == Punctuator(")")
    decreases |toks| - p
  {
    if p == |toks| || toks[p] == Punctuator(")") {
    } else if commaExpected {
      if toks[p] == Punctuator(",") {
        ArgsClose(toks, p + 1, args, false, true);
      }
    } else {
      var e := ExpressionAt(toks, p);
      if e.Parsed? {
        ArgsClose(toks, e.rest, args + [e.value], true, false);
      }
    }
  }

  lemma {:induction false} PostfixEnd(toks: seq<Token>, p: nat, lhs: Expression)
    requires 0 < p <= |toks| && toks[p - 1] != Punctuator(",")
    ensures var r := PostfixLoop(toks, p, lhs);
      r.Parsed? && r.rest < |toks| ==> toks[r.rest - 1] != Punctuator(",")
    decreases |toks| - p
  {
    if p < |toks| && toks[p] == Punctuator("(") {
      var args := ArgsLoop(toks, p + 1, [], false, false);
      if args.Parsed? && args.rest < |toks| {
        ArgsClose(toks, p + 1, [], false, false);
        PostfixEnd(toks, args.rest, Expression.FunctionCall(lhs, args.value, None));
      }
    }
  }

  /** An expression that ends before the tokens do does not end with a comma. */
  lemma ExpressionEnd(toks: seq<Token>, p: nat)
    requires p <= |toks|
    ensures var r := ExpressionAt(toks, p);
      r.Parsed? && r.rest < |toks| ==> toks[r.rest - 1] != Punctuator(",")
  {
    var prim := PrimaryAt(toks, p);
    if prim.Parsed? {
      PostfixEnd(toks, prim.rest, prim.value);
    }
  }

  /**
   * An argument list closed by `)` has no comma in front of the `)`, and an
   * empty one is closed only when no comma was read.
   */
  lemma {:induction false} NoTrailingComma(toks: seq<Token>, p: nat, args: seq<Expression>, commaExpected: bool, trailingComma: bool)
    requires p <= |toks|
    ensures var r := ArgsLoop(toks, p, args, commaExpected, trailingComma);
      r.Parsed? && r.rest < |toks| ==>
        (r.rest - 1 == p ==> !trailingComma) && (r.rest >= p + 2 ==> toks[r.rest - 2] != Punctuator(","))
    decreases |toks| - p
  {
    if p == |toks| || toks[p] == Punctuator(")") {
    } else if commaExpected {
      if toks[p] == Punctuator(",") {
        ArgsClose(toks, p + 1, args, false, true);
        NoTrailingComma(toks, p + 1, args, false, true);
      }
    } else {
      var e := ExpressionAt(toks, p);
      if e.Parsed? {
        ArgsClose(toks, e.rest, args + [e.value], true, false);
        NoTrailingComma(toks, e.rest, args + [e.value], true, false);
        ExpressionEnd(toks, p);
      }
    }
  }

  function Id(x: string): Token { Token.Identifier(x) }

  /** `f(a,)` is rejected. */
  lemma TrailingCommaRejected(f: string, a: string)
    ensures ExpressionAt([Id(f), Punctuator("("), Id(a), Punctuator(","), Punctuator(")")], 0) == Rejected
  {
    var toks := [Id(f), Punctuator("("), Id(a), Punctuator(","), Punctuator(")")];
    var ida := Expression.Identifier(a, None);
    assert PostfixLoop(toks, 3, ida) == Parsed(ida, 3);
    assert ExpressionAt(toks, 2) == Parsed(ida, 3);
    assert ArgsLoop(toks, 4, [ida], false, true) == Rejected;
    assert ArgsLoop(toks, 3, [ida], true, false) == Rejected;
    assert [] + [ida] == [ida];
    assert ArgsLoop(toks, 2, [], false, false) == Rejected;
    assert PostfixLoop(toks, 1, Expression.Identifier(f, None)) == Rejected;
  }

  /** `f(a b)` is rejected. */
  lemma MissingCommaRejected(f: string, a: string, b: string)
    ensures ExpressionAt([Id(f), Punctuator("("), Id(a), Id(b), Punctuator(")")], 0) == Rejected
  {
    var toks := [Id(f), Punctuator("("), Id(a), Id(b), Punctuator(")")];
    assert PostfixLoop(toks, 3, Expression.Identifier(a, None)) == Rejected;
    assert ExpressionAt(toks, 2) == Rejected;
    assert ArgsLoop(toks, 2, [], false, false) == Rejected;
    assert PostfixLoop(toks, 1, Expression.Identifier(f, None)) == Rejected;
  }

  /** `f(a,` at the end of the tokens is a call with one argument: running out of tokens ends the list. */
  lemma UnclosedCallAccepted(f: string, a: string)
    ensures ExpressionAt([Id(f), Punctuator("("), Id(a), Punctuator(",")], 0)
         == Parsed(Expression.FunctionCall(Expression.Identifier(f, None), [Expression.Identifier(a, None)], None), 4)
  {
    var toks := [Id(f), Punctuator("("), Id(a), Punctuator(",")];
    var ida := Expression.Identifier(a, None);
    var call := Expression.FunctionCall(Expression.Identifier(f, None), [ida], None);
    assert PostfixLoop(toks, 3, ida) == Parsed(ida, 3);
    assert ExpressionAt(toks, 2) == Parsed(ida, 3);
    assert ArgsLoop(toks, 4, [ida], false, true) == Parsed([ida], 4);
    assert ArgsLoop(toks, 3, [ida], true, false) == Parsed([ida], 4);
    assert [] + [ida] == [ida];
    assert ArgsLoop(toks, 2, [], false, false) == Parsed([ida], 4);
    assert PostfixLoop(toks, 4, call) == Parsed(call, 4);
    assert PostfixLoop(toks, 1, Expression.Identifier(f, None)) == Parsed(call, 4);
  }

  /** `f()()` calls the result of `f()`: each `(` wraps what was parsed so far as the callee. */
  lemma CallsChain(f: string)
    ensures ExpressionAt([Id(f), Punctuator("("), Punctuator(")"), Punctuator("("), Punctuator(")"), Punctuator(";")], 0)
         == Parsed(Expression.FunctionCall(Expression.FunctionCall(Expression.Identifier(f, None), [], None), [], None), 5)
  {
    var toks := [Id(f), Punctuator("("), Punctuator(")"), Punctuator("("), Punctuator(")"), Punctuator(";")];
    var inner := Expression.FunctionCall(Expression.Identifier(f, None), [], None);
    var outer := Expression.FunctionCall(inner, [], None);
    assert ArgsLoop(toks, 4, [], false, false) == Parsed([], 5);
    assert PostfixLoop(toks, 5, outer) == Parsed(outer, 5);
    assert PostfixLoop(toks, 3, inner) == Parsed(outer, 5);
    assert ArgsLoop(toks, 2, [], false, false) == Parsed([], 3);
    assert PostfixLoop(toks, 1, Expression.Identifier(f, None)) == Parsed(outer, 5);
  }

  /** Any other punctuator after an expression makes the loop spin: `a + b` never finishes. */
  lemma OtherPunctuatorDiverges(a: string, b: string)
    ensures ExpressionAt([Id(a), Punctuator("+"), Id(b)], 0) == Diverges
  {
    var toks := [Id(a), Punctuator("+"), Id(b)];
    assert PostfixLoop(toks, 1, Expression.Identifier(a, None)) == Diverges;
  }

  // ---------------------------------------------------------- pointers

  /** `n` pointer layers without qualifiers around `ptr`. */
  function Wrap(ptr: Option<Pointer>, n: nat): Option<Pointer> {
    if n == 0 then ptr else Some(Pointer(false, false, Wrap(ptr, n - 1)))
  }

  /**
   * The pointer loop reads a run of `*`, none followed by a keyword, and
   * each `*` makes a pointer whose `sub_ptr` is the pointer before it.
   */
  lemma {:induction false} PointerLoopStars(toks: seq<Token>, p: nat, ptr: Option<Pointer>)
    requires p <= |toks|
    ensures var r := PointerLoop(toks, p, ptr);
      r.Parsed? ==>
        (forall i | p <= i < r.rest :: toks[i] == Punctuator("*"))
        && (r.rest == |toks| || toks[r.rest] != Punctuator("*"))
        && (p < r.rest < |toks| ==> !toks[r.rest].Keyword?)
        && r.value == Wrap(ptr, r.rest - p)
    decreases |toks| - p
  {
    if p < |toks| && toks[p] == Punctuator("*") && !(p + 1 < |toks| && toks[p + 1].Keyword?) {
      var ptr' := Some(Pointer(false, false, ptr));
      PointerLoopStars(toks, p + 1, ptr');
      var r := PointerLoop(toks, p + 1, ptr');
      if r.Parsed? {
        WrapShift(ptr, r.rest - p - 1);
      }
    }
  }

  lemma {:induction false} WrapShift(ptr: Option<Pointer>, n: nat)
    ensures Wrap(Some(Pointer(false, false, ptr)), n) == Wrap(ptr, n + 1)
  {
    if n > 0 {
      WrapShift(ptr, n - 1);
    }
  }

  /** `*` followed by any keyword, `const` and `restrict` included, makes the qualifier loop spin. */
  lemma PointerQualifierDiverges(toks: seq<Token>, p: nat, ptr: Option<Pointer>)
    requires p + 1 < |toks| && toks[p] == Punctuator("*") && toks[p + 1].Keyword?
    ensures PointerLoop(toks, p, ptr) == Diverges
  {
  }

  /** Every layer of `ptr` is neither `const` nor `restrict`. */
  predicate PlainPointer(ptr: Option<Pointer>) {
    ptr.Some? ==> !ptr.value.constant && !ptr.value.restrict && PlainPointer(ptr.value.subPtr)
  }

  lemma {:induction false} WrapPlain(ptr: Option<Pointer>, n: nat)
    requires PlainPointer(ptr)
    ensures PlainPointer(Wrap(ptr, n))
  {
    if n > 0 {
      WrapPlain(ptr, n - 1);
    }
  }

  /** A pointer the parser builds never carries a qualifier. */
  lemma ParsedPointersPlain(toks: seq<Token>, p: nat)
    requires p <= |toks|
    ensures PointerLoop(toks, p, None).Parsed? ==> PlainPointer(PointerLoop(toks, p, None).value)
  {
    PointerLoopStars(toks, p, None);
    var r := PointerLoop(toks, p, None);
    if r.Parsed? {
      WrapPlain(None, r.rest - p);
    }
  }

  // -------------------------------------------------------- parameters

  /**
   * A parameter round at a punctuator other than `)` and `*` consumes
   * nothing, so the parameter loop repeats it forever; in particular at
   * the comma between two parameters.
   */
  lemma PunctuatorParameterDiverges(toks: seq<Token>, p: nat, params: seq<Parameter>)
    requires p < |toks| && toks[p].Punctuator? && toks[p] != Punctuator(")") && toks[p] != Punctuator("*")
    ensures ParamsLoop(toks, p, params) == Diverges
  {
    assert TypeAt(toks, p) == Parsed(GatheredType(None, false), p);
    assert PointerLoop(toks, p, None) == Parsed(None, p);
  }

  /** `int f(int a, int b);` never finishes. */
  lemma CommaSeparatedParametersDiverge(f: string, a: string, b: string)
    ensures DeclarationAt([Keyword("int"), Id(f), Punctuator("("), Keyword("int"), Id(a), Punctuator(","),
                           Keyword("int"), Id(b), Punctuator(")"), Punctuator(";")], 0) == Diverges
  {
    var toks := [Keyword("int"), Id(f), Punctuator("("), Keyword("int"), Id(a), Punctuator(","),
                 Keyword("int"), Id(b), Punctuator(")"), Punctuator(";")];
    var intTy := Type(Primitive(Int), false);
    assert TypeLoop(toks, 1, Some(Int), false) == Parsed(intTy, 1);
    assert TypeAt(toks, 0) == Parsed(intTy, 1);
    assert TypeLoop(toks, 4, Some(Int), false) == Parsed(intTy, 4);
    assert TypeAt(toks, 3) == Parsed(intTy, 4);
    assert PointerLoop(toks, 4, None) == Parsed(None, 4);
    var first := Parameter(FullType(intTy, None), Some(a));
    assert ParamsLoop(toks, 3, []) == ParamsLoop(toks, 5, [first]);
    PunctuatorParameterDiverges(toks, 5, [first]);
  }
}
