/**
 * A renderer from syntax trees back to tokens, and the round trip: every
 * declaration of the shape the C parser can accept renders to tokens the
 * parser reads back into the same declaration.
 *
 * "The shape the parser can accept" reflects `c/src/parse.rs` as written:
 * expressions carry no type, pointers carry no qualifier, a function has at
 * most one parameter (a comma between parameters makes the loop spin), an
 * initializer is a function body, and a variable has no initializer.
 */
module CParseRender {
  import opened Wrappers
  import opened CParse
  import opened CParseFacts

  /** `toks` holds `r` from position `p` on. */
  predicate Spells(toks: seq<Token>, p: nat, r: seq<Token>) {
    p + |r| <= |toks| && forall i | 0 <= i < |r| :: toks[p + i] == r[i]
  }

  lemma SpellsSplit(toks: seq<Token>, p: nat, a: seq<Token>, b: seq<Token>)
    requires Spells(toks, p, a + b)
    ensures Spells(toks, p, a) && Spells(toks, p + |a|, b)
  {
    forall i | 0 <= i < |a|
      ensures toks[p + i] == a[i]
    {
      assert (a + b)[i] == a[i];
    }
    forall j | 0 <= j < |b|
      ensures toks[p + |a| + j] == b[j]
    {
      assert (a + b)[|a| + j] == b[j];
    }
  }

  lemma AppendFirst<T>(acc: seq<T>, xs: seq<T>)
    requires xs != []
    ensures acc + [xs[0]] + xs[1..] == acc + xs
  {
    assert [xs[0]] + xs[1..] == xs;
  }

  lemma SpellsAt(toks: seq<Token>, p: nat, r: seq<Token>, i: nat)
    requires Spells(toks, p, r) && i < |r|
    ensures toks[p + i] == r[i]
  {
  }

  // ------------------------------------------------------- expressions

  /** The tokens of `e`; a string literal is given kind 0, since the tree does not keep its kind. */
  function RenderExpression(e: Expression): (r: seq<Token>)
    ensures |r| > 0 && (r[0].Identifier? || r[0].StringLiteral?)
    decreases e, 1
  {
    match e
    case Identifier(id, _) => [Token.Identifier(id)]
    case String(s, _) => [StringLiteral(StrKind(0), s)]
    case FunctionCall(callee, args, _) =>
      RenderExpression(callee) + ([Punctuator("(")] + RenderArgs(args) + [Punctuator(")")])
  }

  /** Arguments separated by commas. */
  function RenderArgs(args: seq<Expression>): seq<Token>
    decreases args, 0
  {
    if args == [] then []
    else if |args| == 1 then RenderExpression(args[0])
    else RenderExpression(args[0]) + ([Punctuator(",")] + RenderArgs(args[1..]))
  }

  /** Reading a rendered expression leaves the postfix loop where the rendering ends. */
  lemma {:induction false} ExpressionPrefix(toks: seq<Token>, p: nat, e: Expression)
    requires Untyped(e) && Spells(toks, p, RenderExpression(e))
    ensures ExpressionAt(toks, p) == PostfixLoop(toks, p + |RenderExpression(e)|, e)
    decreases e, 2, 1, 0
  {
    SpellsAt(toks, p, RenderExpression(e), 0);
    if e.FunctionCall? {
      var rc := RenderExpression(e.callee);
      var ra := RenderArgs(e.args) + [Punctuator(")")];
      assert RenderExpression(e) == rc + ([Punctuator("(")] + ra);
      SpellsSplit(toks, p, rc, [Punctuator("(")] + ra);
      SpellsSplit(toks, p + |rc|, [Punctuator("(")], ra);
      SpellsAt(toks, p + |rc|, [Punctuator("(")], 0);
      CallPrefix(toks, p, e, p + |rc|);
    }
  }

  /** A rendered call read piece by piece: its callee, the `(`, and its arguments. */
  lemma {:induction false} CallPrefix(toks: seq<Token>, p: nat, e: Expression, q: nat)
    requires e.FunctionCall? && Untyped(e)
    requires Spells(toks, p, RenderExpression(e.callee)) && q == p + |RenderExpression(e.callee)|
    requires q < |toks| && toks[q] == Punctuator("(")
    requires Spells(toks, q + 1, RenderArgs(e.args) + [Punctuator(")")])
    ensures ExpressionAt(toks, p) == PostfixLoop(toks, q + |RenderArgs(e.args)| + 2, e)
    decreases e, 2, 0, 0
  {
    ExpressionPrefix(toks, p, e.callee);
    ArgsRoundTrip(toks, q + 1, e);
    CallStep(toks, q, e.callee, e.args, q + |RenderArgs(e.args)| + 2);
  }

  /** One `(` of the postfix loop, once its arguments are known. */
  lemma CallStep(toks: seq<Token>, q: nat, lhs: Expression, args: seq<Expression>, end: nat)
    requires q < |toks| && toks[q] == Punctuator("(")
    requires ArgsLoop(toks, q + 1, [], false, false) == Parsed(args, end)
    ensures PostfixLoop(toks, q, lhs) == PostfixLoop(toks, end, Expression.FunctionCall(lhs, args, None))
  {
  }

  lemma {:induction false} ArgsRoundTrip(toks: seq<Token>, p: nat, e: Expression)
    requires e.FunctionCall? && Untyped(e) && Spells(toks, p, RenderArgs(e.args) + [Punctuator(")")])
    ensures ArgsLoop(toks, p, [], false, false) == Parsed(e.args, p + |RenderArgs(e.args)| + 1)
    decreases e, 1, 0, 0
  {
    if e.args == [] {
      SpellsAt(toks, p, RenderArgs(e.args) + [Punctuator(")")], 0);
    } else {
      assert e.args[..0] == [];
      ArgsFrom(toks, p, e, 0);
    }
  }

  lemma {:induction false} ArgsFrom(toks: seq<Token>, p: nat, e: Expression, i: nat)
    requires e.FunctionCall? && Untyped(e) && i < |e.args|
    requires Spells(toks, p, RenderArgs(e.args[i..]) + [Punctuator(")")])
    ensures ArgsLoop(toks, p, e.args[..i], false, i > 0) == Parsed(e.args, p + |RenderArgs(e.args[i..])| + 1)
    decreases e, 0, |e.args| - i, 1
  {
    var args := e.args;
    var q := ArgumentAt(toks, p, e, i);
    ArgStep(toks, p, args[..i], i > 0, args[i], q);
    assert args[..i] + [args[i]] == args[..i + 1];
    if i + 1 == |args| {
      CloseStep(toks, q, args[..i + 1], true);
      assert args[..i + 1] == args;
    } else {
      CommaStep(toks, q, args[..i + 1]);
      ArgsFrom(toks, q + 1, e, i + 1);
    }
  }

  /** The `i`-th argument of a rendered call, and the `,` or `)` after it. */
  lemma {:induction false} ArgumentAt(toks: seq<Token>, p: nat, e: Expression, i: nat) returns (q: nat)
    requires e.FunctionCall? && Untyped(e) && i < |e.args|
    requires Spells(toks, p, RenderArgs(e.args[i..]) + [Punctuator(")")])
    ensures p < q < |toks| && toks[p] != Punctuator(")") && ExpressionAt(toks, p) == Parsed(e.args[i], q)
    ensures i + 1 == |e.args| ==> toks[q] == Punctuator(")") && q == p + |RenderArgs(e.args[i..])|
    ensures i + 1 < |e.args| ==>
      toks[q] == Punctuator(",") && Spells(toks, q + 1, RenderArgs(e.args[i + 1..]) + [Punctuator(")")])
      && q + 1 + |RenderArgs(e.args[i + 1..])| == p + |RenderArgs(e.args[i..])|
    decreases e, 0, |e.args| - i, 0
  {
    var args := e.args;
    var a := args[i];
    assert a in args;
    var ra := RenderExpression(a);
    var tail := if i + 1 < |args| then [Punctuator(",")] + RenderArgs(args[i + 1..]) else [];
    assert args[i..][0] == a;
    assert i + 1 < |args| ==> args[i..][1..] == args[i + 1..];
    assert RenderArgs(args[i..]) == ra + tail;
    assert RenderArgs(args[i..]) + [Punctuator(")")] == ra + (tail + [Punctuator(")")]);
    SpellsSplit(toks, p, ra, tail + [Punctuator(")")]);
    SpellsAt(toks, p, ra, 0);
    SpellsAt(toks, p + |ra|, tail + [Punctuator(")")], 0);
    ExpressionPrefix(toks, p, a);
    StopStep(toks, p + |ra|, a);
    q := p + |ra|;
    if i + 1 < |args| {
      assert tail + [Punctuator(")")] == [Punctuator(",")] + (RenderArgs(args[i + 1..]) + [Punctuator(")")]);
      SpellsSplit(toks, q, [Punctuator(",")], RenderArgs(args[i + 1..]) + [Punctuator(")")]);
    }
  }

  /** The postfix loop stops in front of `,` and `)`. */
  lemma StopStep(toks: seq<Token>, q: nat, lhs: Expression)
    requires q < |toks| && (toks[q] == Punctuator(",") || toks[q] == Punctuator(")"))
    ensures PostfixLoop(toks, q, lhs) == Parsed(lhs, q)
  {
  }

  /** An argument read by the argument loop. */
  lemma ArgStep(toks: seq<Token>, p: nat, acc: seq<Expression>, trailingComma: bool, a: Expression, q: nat)
    requires p < |toks| && toks[p] != Punctuator(")") && ExpressionAt(toks, p) == Parsed(a, q)
    ensures ArgsLoop(toks, p, acc, false, trailingComma) == ArgsLoop(toks, q, acc + [a], true, false)
  {
  }

  /** The comma after an argument. */
  lemma CommaStep(toks: seq<Token>, q: nat, acc: seq<Expression>)
    requires q < |toks| && toks[q] == Punctuator(",")
    ensures ArgsLoop(toks, q, acc, true, false) == ArgsLoop(toks, q + 1, acc, false, true)
  {
  }

  /** The `)` closing an argument list without a trailing comma. */
  lemma CloseStep(toks: seq<Token>, q: nat, acc: seq<Expression>, commaExpected: bool)
    requires q < |toks| && toks[q] == Punctuator(")")
    ensures ArgsLoop(toks, q, acc, commaExpected, false) == Parsed(acc, q + 1)
  {
  }

  /** A rendered untyped expression, followed by `;`, `,`, `)` or nothing, reads back as itself. */
  lemma ExpressionRoundTrip(toks: seq<Token>, p: nat, e: Expression)
    requires Untyped(e) && Spells(toks, p, RenderExpression(e)) && StopsExpression(toks, p + |RenderExpression(e)|)
    ensures ExpressionAt(toks, p) == Parsed(e, p + |RenderExpression(e)|)
  {
    ExpressionPrefix(toks, p, e);
  }

  // -------------------------------------------------------- statements

  function RenderStatement(s: Statement): seq<Token> {
    RenderExpression(s.expr) + [Punctuator(";")]
  }

  function RenderStatements(ss: seq<Statement>): seq<Token> {
    if ss == [] then [] else RenderStatement(ss[0]) + RenderStatements(ss[1..])
  }

  lemma StatementRoundTrip(toks: seq<Token>, p: nat, s: Statement)
    requires Untyped(s.expr) && Spells(toks, p, RenderStatement(s))
    ensures StatementAt(toks, p) == Parsed(s, p + |RenderStatement(s)|)
  {
    var re := RenderExpression(s.expr);
    SpellsSplit(toks, p, re, [Punctuator(";")]);
    SpellsAt(toks, p + |re|, [Punctuator(";")], 0);
    ExpressionRoundTrip(toks, p, s.expr);
  }

  /** The statements of a rendered block, then its `}`, read back as those statements. */
  lemma {:induction false} BlockRoundTrip(toks: seq<Token>, p: nat, ss: seq<Statement>, acc: seq<Statement>)
    requires forall s | s in ss :: Untyped(s.expr)
    requires Spells(toks, p, RenderStatements(ss) + [Punctuator("}")])
    ensures BlockLoop(toks, p, acc) == Parsed(acc + ss, p + |RenderStatements(ss)| + 1)
    decreases ss
  {
    if ss == [] {
      SpellsAt(toks, p, RenderStatements(ss) + [Punctuator("}")], 0);
      BlockClose(toks, p, acc);
      assert acc + ss == acc;
    } else {
      var q := FirstStatement(toks, p, ss);
      BlockStep(toks, p, acc, ss[0], q);
      BlockRoundTrip(toks, q, ss[1..], acc + [ss[0]]);
      AppendFirst(acc, ss);
    }
  }

  /** The first statement of a rendered block, and where the rest begins. */
  lemma FirstStatement(toks: seq<Token>, p: nat, ss: seq<Statement>) returns (q: nat)
    requires ss != [] && forall s | s in ss :: Untyped(s.expr)
    requires Spells(toks, p, RenderStatements(ss) + [Punctuator("}")])
    ensures p < q && p < |toks| && toks[p] != Punctuator("}") && StatementAt(toks, p) == Parsed(ss[0], q)
    ensures forall s | s in ss[1..] :: Untyped(s.expr)
    ensures Spells(toks, q, RenderStatements(ss[1..]) + [Punctuator("}")])
    ensures q + |RenderStatements(ss[1..])| == p + |RenderStatements(ss)|
  {
    var rs := RenderStatement(ss[0]);
    assert ss[0] in ss;
    assert forall s | s in ss[1..] :: s in ss;
    assert RenderStatements(ss) + [Punctuator("}")] == rs + (RenderStatements(ss[1..]) + [Punctuator("}")]);
    SpellsSplit(toks, p, rs, RenderStatements(ss[1..]) + [Punctuator("}")]);
    SpellsAt(toks, p, rs, 0);
    StatementRoundTrip(toks, p, ss[0]);
    q := p + |rs|;
  }

  lemma BlockClose(toks: seq<Token>, p: nat, acc: seq<Statement>)
    requires p < |toks| && toks[p] == Punctuator("}")
    ensures BlockLoop(toks, p, acc) == Parsed(acc, p + 1)
  {
  }

  lemma BlockStep(toks: seq<Token>, p: nat, acc: seq<Statement>, s: Statement, q: nat)
    requires p < |toks| && toks[p] != Punctuator("}") && StatementAt(toks, p) == Parsed(s, q)
    ensures BlockLoop(toks, p, acc) == BlockLoop(toks, q, acc + [s])
  {
  }

  // ---------------------------------------------------- types and pointers

  function BaseKeyword(prim: PrimitiveType): Token {
    if prim == Char then Keyword("char") else Keyword("int")
  }

  function RenderType(t: Type): seq<Token>
    requires t.base.Primitive?
  {
    (if t.constant then [Keyword("const")] else []) + [BaseKeyword(t.base.prim)]
  }

  /** A token that may follow a type without being read as part of it. */
  predicate EndsType(toks: seq<Token>, q: nat) {
    q == |toks| || (q < |toks| && (toks[q].Punctuator? || toks[q].Identifier?))
  }

  lemma TypeRoundTrip(toks: seq<Token>, p: nat, t: Type)
    requires t.base.Primitive? && Spells(toks, p, RenderType(t)) && EndsType(toks, p + |RenderType(t)|)
    ensures TypeAt(toks, p) == Parsed(t, p + |RenderType(t)|)
  {
    var r := RenderType(t);
    var q := p + |r|;
    SpellsAt(toks, p, r, |r| - 1);
    assert TypeLoop(toks, q, Some(t.base.prim), t.constant) == Parsed(t, q);
    if t.constant {
      SpellsAt(toks, p, r, 0);
      assert TypeLoop(toks, p + 1, None, true) == Parsed(t, q);
    }
  }

  function Stars(n: nat): seq<Token> {
    seq(n, _ => Punctuator("*"))
  }

  function Depth(ptr: Option<Pointer>): nat {
    if ptr.None? then 0 else 1 + Depth(ptr.value.subPtr)
  }

  lemma {:induction false} PlainIsWrap(ptr: Option<Pointer>)
    requires PlainPointer(ptr)
    ensures Wrap(None, Depth(ptr)) == ptr
  {
    if ptr.Some? {
      PlainIsWrap(ptr.value.subPtr);
    }
  }

  lemma {:induction false} PointerRoundTrip(toks: seq<Token>, p: nat, n: nat, ptr: Option<Pointer>)
    requires Spells(toks, p, Stars(n))
    requires p + n == |toks| || (toks[p + n] != Punctuator("*") && !toks[p + n].Keyword?)
    ensures PointerLoop(toks, p, ptr) == Parsed(Wrap(ptr, n), p + n)
    decreases n
  {
    if n > 0 {
      SpellsAt(toks, p, Stars(n), 0);
      assert Stars(n) == [Punctuator("*")] + Stars(n - 1);
      SpellsSplit(toks, p, [Punctuator("*")], Stars(n - 1));
      if n > 1 {
        SpellsAt(toks, p + 1, Stars(n - 1), 0);
      }
      PointerRoundTrip(toks, p + 1, n - 1, Some(Pointer(false, false, ptr)));
      WrapShift(ptr, n - 1);
    }
  }

  // -------------------------------------------------------- parameters

  predicate PrintableParameter(prm: Parameter) {
    prm.ty.inner.base.Primitive? && PlainPointer(prm.ty.pointer)
  }

  function RenderParameter(prm: Parameter): seq<Token>
    requires PrintableParameter(prm)
  {
    RenderType(prm.ty.inner) + Stars(Depth(prm.ty.pointer))
      + NameTokens(prm.name)
  }

  function RenderParams(params: seq<Parameter>): seq<Token>
    requires |params| <= 1 && forall prm | prm in params :: PrintableParameter(prm)
  {
    if params == [] then [] else RenderParameter(params[0])
  }

  lemma ParameterRoundTrip(toks: seq<Token>, p: nat, prm: Parameter)
    requires PrintableParameter(prm) && Spells(toks, p, RenderParameter(prm) + [Punctuator(")")])
    ensures ParamsLoop(toks, p, []) == Parsed([prm], p + |RenderParameter(prm)| + 1)
  {
    var rt := RenderType(prm.ty.inner);
    var d := Depth(prm.ty.pointer);
    var rn := NameTokens(prm.name);
    assert RenderParameter(prm) + [Punctuator(")")] == rt + (Stars(d) + (rn + [Punctuator(")")]));
    SpellsSplit(toks, p, rt, Stars(d) + (rn + [Punctuator(")")]));
    SpellsSplit(toks, p + |rt|, Stars(d), rn + [Punctuator(")")]);
    ParameterParts(toks, p, prm, p + |rt|, p + |rt| + d);
  }

  function NameTokens(name: Option<string>): seq<Token> {
    if name.Some? then [Token.Identifier(name.value)] else []
  }

  /** A parameter read piece by piece: its type, its stars, its name and the `)`. */
  lemma ParameterParts(toks: seq<Token>, p: nat, prm: Parameter, a: nat, b: nat)
    requires PrintableParameter(prm)
    requires Spells(toks, p, RenderType(prm.ty.inner)) && a == p + |RenderType(prm.ty.inner)|
    requires Spells(toks, a, Stars(Depth(prm.ty.pointer))) && b == a + Depth(prm.ty.pointer)
    requires Spells(toks, b, NameTokens(prm.name) + [Punctuator(")")])
    ensures ParamsLoop(toks, p, []) == Parsed([prm], b + |NameTokens(prm.name)| + 1)
  {
    var rn := NameTokens(prm.name);
    var d := Depth(prm.ty.pointer);
    SpellsAt(toks, b, rn + [Punctuator(")")], 0);
    SpellsAt(toks, b, rn + [Punctuator(")")], |rn|);
    SpellsAt(toks, p, RenderType(prm.ty.inner), 0);
    if d > 0 {
      SpellsAt(toks, a, Stars(d), 0);
    }
    TypeRoundTrip(toks, p, prm.ty.inner);
    PointerRoundTrip(toks, a, d, None);
    PlainIsWrap(prm.ty.pointer);
    assert ParamNameAt(toks, b) == (prm.name, b + |rn|);
    assert [] + [Parameter(FullType(prm.ty.inner, prm.ty.pointer), prm.name)] == [prm];
    ParamStep(toks, p, [], prm.ty.inner, a, prm.ty.pointer, b, prm.name, b + |rn|);
    ParamsClose(toks, b + |rn|, [prm]);
  }

  /** One round of the parameter loop that consumes tokens. */
  lemma ParamStep(toks: seq<Token>, p: nat, acc: seq<Parameter>, t: Type, a: nat, ptr: Option<Pointer>, b: nat,
                  name: Option<string>, c: nat)
    requires p < |toks| && toks[p] != Punctuator(")")
    requires TypeAt(toks, p) == Parsed(t, a) && a <= |toks| && PointerLoop(toks, a, None) == Parsed(ptr, b)
    requires b <= |toks| && ParamNameAt(toks, b) == (name, c) && c != p
    ensures ParamsLoop(toks, p, acc) == ParamsLoop(toks, c, acc + [Parameter(FullType(t, ptr), name)])
  {
  }

  lemma ParamsClose(toks: seq<Token>, p: nat, acc: seq<Parameter>)
    requires p < |toks| && toks[p] == Punctuator(")")
    ensures ParamsLoop(toks, p, acc) == Parsed(acc, p + 1)
  {
  }

  lemma ParamsRoundTrip(toks: seq<Token>, p: nat, params: seq<Parameter>)
    requires |params| <= 1 && forall prm | prm in params :: PrintableParameter(prm)
    requires Spells(toks, p, RenderParams(params) + [Punctuator(")")])
    ensures ParamsLoop(toks, p, []) == Parsed(params, p + |RenderParams(params)| + 1)
  {
    if params == [] {
      SpellsAt(toks, p, RenderParams(params) + [Punctuator(")")], 0);
    } else {
      assert params == [params[0]];
      ParameterRoundTrip(toks, p, params[0]);
    }
  }

  // ------------------------------------------------------ declarations

  /** A declaration of a shape the parser accepts. */
  predicate PrintableDeclaration(d: Declaration) {
    d.pointer.None? &&
    match d.ty.base
    case Primitive(_) => d.initializer.None?
    case Function(ret, params) =>
      !d.ty.constant && ret.base.Primitive? && |params| <= 1
      && (forall prm | prm in params :: PrintableParameter(prm))
      && (d.initializer.Some? ==> d.initializer.value.Function? && forall s | s in d.initializer.value.body :: Untyped(s.expr))
  }

  /** The `;` or the body after a function's parameters. */
  function RenderTail(init: Option<Initializer>): seq<Token>
    requires init.Some? ==> init.value.Function?
  {
    if init.None? then [Punctuator(";")]
    else [Punctuator("{")] + RenderStatements(init.value.body) + [Punctuator("}")]
  }

  function RenderDeclaration(d: Declaration): (r: seq<Token>)
    requires PrintableDeclaration(d)
    ensures |r| > 0
  {
    match d.ty.base
    case Primitive(_) => RenderType(d.ty) + [Token.Identifier(d.name), Punctuator(";")]
    case Function(ret, params) =>
      RenderType(ret) + [Token.Identifier(d.name), Punctuator("(")] + RenderParams(params) + [Punctuator(")")]
        + RenderTail(d.initializer)
  }

  lemma TailRoundTrip(toks: seq<Token>, p: nat, d: Declaration)
    requires PrintableDeclaration(d) && d.ty.base.Function? && Spells(toks, p, RenderTail(d.initializer))
    ensures FunctionTailAt(toks, p, d.ty, d.name) == Parsed(d, p + |RenderTail(d.initializer)|)
  {
    SpellsAt(toks, p, RenderTail(d.initializer), 0);
    if d.initializer.Some? {
      var body := d.initializer.value.body;
      assert RenderTail(d.initializer) == [Punctuator("{")] + (RenderStatements(body) + [Punctuator("}")]);
      SpellsSplit(toks, p, [Punctuator("{")], RenderStatements(body) + [Punctuator("}")]);
      BlockRoundTrip(toks, p + 1, body, []);
      assert [] + body == body;
    }
  }

  lemma VariableRoundTrip(toks: seq<Token>, p: nat, d: Declaration)
    requires PrintableDeclaration(d) && d.ty.base.Primitive? && Spells(toks, p, RenderDeclaration(d))
    ensures DeclarationAt(toks, p) == Parsed(d, p + |RenderDeclaration(d)|)
  {
    var rt := RenderType(d.ty);
    SpellsSplit(toks, p, rt, [Token.Identifier(d.name), Punctuator(";")]);
    SpellsAt(toks, p + |rt|, [Token.Identifier(d.name), Punctuator(";")], 0);
    SpellsAt(toks, p + |rt|, [Token.Identifier(d.name), Punctuator(";")], 1);
    TypeRoundTrip(toks, p, d.ty);
  }

  lemma FunctionRoundTrip(toks: seq<Token>, p: nat, d: Declaration)
    requires PrintableDeclaration(d) && d.ty.base.Function? && Spells(toks, p, RenderDeclaration(d))
    ensures DeclarationAt(toks, p) == Parsed(d, p + |RenderDeclaration(d)|)
  {
    var rt := RenderType(d.ty.base.ret);
    var head := [Token.Identifier(d.name), Punctuator("(")];
    var rp := RenderParams(d.ty.base.params) + [Punctuator(")")];
    var tail := RenderTail(d.initializer);
    FunctionShape(d);
    SpellsSplit(toks, p, rt, head + (rp + tail));
    SpellsSplit(toks, p + |rt|, head, rp + tail);
    SpellsSplit(toks, p + |rt| + 2, rp, tail);
    FunctionParts(toks, p, d, p + |rt|, p + |rt| + 2 + |rp|);
  }

  lemma FunctionShape(d: Declaration)
    requires PrintableDeclaration(d) && d.ty.base.Function?
    ensures RenderDeclaration(d)
         == RenderType(d.ty.base.ret) + ([Token.Identifier(d.name), Punctuator("(")]
            + (RenderParams(d.ty.base.params) + [Punctuator(")")] + RenderTail(d.initializer)))
  {
  }

  /** A function declaration read piece by piece: its return type, name, parameters and tail. */
  lemma FunctionParts(toks: seq<Token>, p: nat, d: Declaration, a: nat, b: nat)
    requires PrintableDeclaration(d) && d.ty.base.Function?
    requires Spells(toks, p, RenderType(d.ty.base.ret)) && a == p + |RenderType(d.ty.base.ret)|
    requires Spells(toks, a, [Token.Identifier(d.name), Punctuator("(")])
    requires Spells(toks, a + 2, RenderParams(d.ty.base.params) + [Punctuator(")")])
    requires b == a + 2 + |RenderParams(d.ty.base.params)| + 1
    requires Spells(toks, b, RenderTail(d.initializer))
    ensures DeclarationAt(toks, p) == Parsed(d, b + |RenderTail(d.initializer)|)
  {
    var ret := d.ty.base.ret;
    var params := d.ty.base.params;
    SpellsAt(toks, a, [Token.Identifier(d.name), Punctuator("(")], 0);
    SpellsAt(toks, a, [Token.Identifier(d.name), Punctuator("(")], 1);
    TypeRoundTrip(toks, p, ret);
    ParamsRoundTrip(toks, a + 2, params);
    TailRoundTrip(toks, b, d);
    assert d.ty == Type(BaseType.Function(ret, params), false);
    FunctionStep(toks, p, ret, a, d.name, params, b);
  }

  /** A function declaration up to its parameters. */
  lemma FunctionStep(toks: seq<Token>, p: nat, ret: Type, a: nat, name: string, params: seq<Parameter>, b: nat)
    requires p <= |toks| && TypeAt(toks, p) == Parsed(ret, a) && a + 1 < |toks|
    requires toks[a] == Token.Identifier(name) && toks[a + 1] == Punctuator("(")
    requires ParamsLoop(toks, a + 2, []) == Parsed(params, b) && b <= |toks|
    ensures DeclarationAt(toks, p) == FunctionTailAt(toks, b, Type(BaseType.Function(ret, params), false), name)
  {
  }

  function RenderProgram(decls: seq<Declaration>): seq<Token>
    requires forall d | d in decls :: PrintableDeclaration(d)
  {
    if decls == [] then [] else RenderDeclaration(decls[0]) + RenderProgram(decls[1..])
  }

  lemma DeclarationRoundTrip(toks: seq<Token>, p: nat, d: Declaration)
    requires PrintableDeclaration(d) && Spells(toks, p, RenderDeclaration(d))
    ensures DeclarationAt(toks, p) == Parsed(d, p + |RenderDeclaration(d)|)
  {
    if d.ty.base.Primitive? {
      VariableRoundTrip(toks, p, d);
    } else {
      FunctionRoundTrip(toks, p, d);
    }
  }

  lemma DeclarationStep(toks: seq<Token>, p: nat, acc: seq<Declaration>, d: Declaration, q: nat)
    requires p < |toks| && DeclarationAt(toks, p) == Parsed(d, q)
    ensures DeclarationsLoop(toks, p, acc) == DeclarationsLoop(toks, q, acc + [d])
  {
  }

  /** The first declaration of a rendered program, and where the rest begins. */
  lemma FirstDeclaration(toks: seq<Token>, p: nat, decls: seq<Declaration>) returns (q: nat)
    requires decls != [] && forall d | d in decls :: PrintableDeclaration(d)
    requires Spells(toks, p, RenderProgram(decls)) && p + |RenderProgram(decls)| == |toks|
    ensures p < q && DeclarationAt(toks, p) == Parsed(decls[0], q)
    ensures forall d | d in decls[1..] :: PrintableDeclaration(d)
    ensures Spells(toks, q, RenderProgram(decls[1..])) && q + |RenderProgram(decls[1..])| == |toks|
  {
    var d := decls[0];
    assert d in decls;
    var rd := RenderDeclaration(d);
    assert forall x | x in decls[1..] :: x in decls;
    assert RenderProgram(decls) == rd + RenderProgram(decls[1..]);
    SpellsSplit(toks, p, rd, RenderProgram(decls[1..]));
    DeclarationRoundTrip(toks, p, d);
    q := p + |rd|;
  }

  lemma {:induction false} DeclarationsRoundTrip(toks: seq<Token>, p: nat, decls: seq<Declaration>, acc: seq<Declaration>)
    requires forall d | d in decls :: PrintableDeclaration(d)
    requires Spells(toks, p, RenderProgram(decls)) && p + |RenderProgram(decls)| == |toks|
    ensures DeclarationsLoop(toks, p, acc) == Parsed(acc + decls, |toks|)
    decreases decls
  {
    if decls == [] {
      assert acc + decls == acc;
    } else {
      var q := FirstDeclaration(toks, p, decls);
      DeclarationStep(toks, p, acc, decls[0], q);
      DeclarationsRoundTrip(toks, q, decls[1..], acc + [decls[0]]);
      AppendFirst(acc, decls);
    }
  }

  /** `parse` reads a rendered program back as the declarations it renders. */
  lemma ParseRoundTrip(decls: seq<Declaration>)
    requires forall d | d in decls :: PrintableDeclaration(d)
    ensures ParseTokens(RenderProgram(decls)) == Parsed(decls, |RenderProgram(decls)|)
  {
    var toks := RenderProgram(decls);
    DeclarationsRoundTrip(toks, 0, decls, []);
    assert [] + decls == decls;
  }
}
