/**
 * The recursive-descent parser of the C front end (`c/src/parse.rs`).
 *
 * The lexer (`crate::lex`) is not part of this model: its tokens are an input
 * datatype.  The parser reads them through a peekable iterator, modelled as
 * a `Parser` object holding the tokens and the position of the next one;
 * each parsing method advances it as the source does and is proved equal
 * to a specification function of the tokens and the starting position.
 *
 * A `panic!` of the parser (its `diagnostic()`) is `Rejected`, a `todo!()`
 * is `Unsupported`, and a loop that would run forever is `Diverges`: the
 * loop over an expression's postfix punctuators on a punctuator it does not
 * handle, the loop over pointer qualifiers on any keyword, and an iteration
 * of the parameter loop that consumes no token (it would repeat at the same
 * position forever).
 */
module CParse {
  import opened Wrappers

  /** A string literal's kind, as the lexer reports it; carried through unchanged. */
  datatype StrKind = StrKind(tag: nat)

  datatype Token =
    | Identifier(id: string)
    | Keyword(kw: string)
    | Punctuator(punct: string)
    | StringLiteral(kind: StrKind, text: string)

  datatype PrimitiveType = Char | Int

  datatype BaseType =
    | Function(ret: Type, params: seq<Parameter>)
    | Primitive(prim: PrimitiveType)

  datatype Type = Type(base: BaseType, constant: bool)

  datatype Pointer = Pointer(constant: bool, restrict: bool, subPtr: Option<Pointer>)

  datatype FullType = FullType(inner: Type, pointer: Option<Pointer>)

  /** A function parameter: its type and, when written, its name. */
  datatype Parameter = Parameter(ty: FullType, name: Option<string>)

  datatype Expression =
    | FunctionCall(callee: Expression, args: seq<Expression>, ty: Option<FullType>)
    | Identifier(id: string, ty: Option<FullType>)
    | String(str: string, ty: Option<FullType>)
  {
    /** `Expression::get_type`. */
    function GetType(): Option<FullType> {
      ty
    }
  }

  datatype Statement = Expression(expr: Expression)

  datatype Initializer =
    | Expression(expr: Expression)
    | Function(body: seq<Statement>)

  datatype Declaration = Declaration(ty: Type, pointer: Option<Pointer>, name: string, initializer: Option<Initializer>)

  /**
   * The outcome of parsing from some position: the value and the position
   * after it, or the way the parser stops.
   */
  datatype Outcome<+T> = Parsed(value: T, rest: nat) | Rejected | Unsupported | Diverges {
    /** The same way of stopping, at another type. */
    function Fail<U>(): Outcome<U>
      requires !Parsed?
    {
      match this
      case Rejected => Rejected
      case Unsupported => Unsupported
      case Diverges => Diverges
    }
  }

  // ----------------------------------------------- specification functions

  /** `parse_identifier` from position `p`. */
  function IdentifierAt(toks: seq<Token>, p: nat): (r: Outcome<string>)
    requires p <= |toks|
    ensures r.Parsed? <==> p < |toks| && toks[p].Identifier?
    ensures r.Parsed? ==> r.rest == p + 1 && toks[p] == Token.Identifier(r.value)
    ensures !r.Parsed? ==> r == Rejected
  {
    if p < |toks| && toks[p].Identifier? then Parsed(toks[p].id, p + 1) else Rejected
  }

  /** The type the loop of `parse_type` has gathered. */
  function GatheredType(base: Option<PrimitiveType>, constant: bool): Type {
    Type(Primitive(base.GetOr(Int)), constant)
  }

  /** The loop of `parse_type` from position `p`, having gathered `base` and `constant`. */
  function TypeLoop(toks: seq<Token>, p: nat, base: Option<PrimitiveType>, constant: bool): (r: Outcome<Type>)
    requires p <= |toks|
    ensures r.Parsed? ==> p <= r.rest <= |toks|
    decreases |toks| - p
  {
    if p == |toks| then Parsed(GatheredType(base, constant), p)
    else
      var t := toks[p];
      if t == Keyword("char") then
        if base.Some? then Rejected else TypeLoop(toks, p + 1, Some(Char), constant)
      else if t == Keyword("const") then TypeLoop(toks, p + 1, base, true)
      else if t == Keyword("int") then
        if base.Some? then Rejected else TypeLoop(toks, p + 1, Some(Int), constant)
      else if t.Punctuator? then Parsed(GatheredType(base, constant), p)
      else if t.Identifier? then
        if base.Some? then Parsed(GatheredType(base, constant), p) else Unsupported
      else Rejected
  }

  /** `parse_type` from position `p`. */
  function TypeAt(toks: seq<Token>, p: nat): (r: Outcome<Type>)
    requires p <= |toks|
    ensures r.Parsed? ==> p <= r.rest <= |toks|
  {
    TypeLoop(toks, p, None, false)
  }

  /** `parse_primary_expression` from position `p`. */
  function PrimaryAt(toks: seq<Token>, p: nat): (r: Outcome<Expression>)
    requires p <= |toks|
    ensures r.Parsed? <==> p < |toks| && (toks[p].Identifier? || toks[p].StringLiteral?)
    ensures r.Parsed? && toks[p].Identifier? ==> r.value == Expression.Identifier(toks[p].id, None)
    ensures r.Parsed? && toks[p].StringLiteral? ==> r.value == Expression.String(toks[p].text, None)
    ensures r.Parsed? ==> r.rest == p + 1
    ensures !r.Parsed? ==> r == Rejected
  {
    if p == |toks| then Rejected
    else
      match toks[p]
      case Identifier(id) => Parsed(Expression.Identifier(id, None), p + 1)
      case StringLiteral(_, s) => Parsed(Expression.String(s, None), p + 1)
      case _ => Rejected
  }

  /** `parse_expression` from position `p`. */
  function ExpressionAt(toks: seq<Token>, p: nat): (r: Outcome<Expression>)
    requires p <= |toks|
    ensures r.Parsed? ==> p < r.rest <= |toks|
    decreases |toks| - p, 0
  {
    var prim := PrimaryAt(toks, p);
    if !prim.Parsed? then prim.Fail() else PostfixLoop(toks, prim.rest, prim.value)
  }

  /** The outer loop of `parse_expression` from position `p` with `lhs` parsed so far. */
  function PostfixLoop(toks: seq<Token>, p: nat, lhs: Expression): (r: Outcome<Expression>)
    requires p <= |toks|
    ensures r.Parsed? ==> p <= r.rest <= |toks|
    decreases |toks| - p, 0
  {
    if p == |toks| then Parsed(lhs, p)
    else
      match toks[p]
      case Punctuator(s) =>
        if s == ";" || s == "," || s == ")" then Parsed(lhs, p)
        else if s == "(" then
          var args := ArgsLoop(toks, p + 1, [], false, false);
          if !args.Parsed? then args.Fail()
          else PostfixLoop(toks, args.rest, Expression.FunctionCall(lhs, args.value, None))
        else Diverges
      case _ => Rejected
  }

  /** The argument loop of `parse_expression` from position `p`. */
  function ArgsLoop(toks: seq<Token>, p: nat, args: seq<Expression>, commaExpected: bool, trailingComma: bool)
      : (r: Outcome<seq<Expression>>)
    requires p <= |toks|
    ensures r.Parsed? ==> p <= r.rest <= |toks| && |r.value| >= |args| && r.value[..|args|] == args
    decreases |toks| - p, 1
  {
    if p == |toks| then Parsed(args, p)
    else if toks[p] == Punctuator(")") then
      if trailingComma then Rejected else Parsed(args, p + 1)
    else if commaExpected then
      if toks[p] == Punctuator(",") then ArgsLoop(toks, p + 1, args, false, true) else Rejected
    else
      var e := ExpressionAt(toks, p);
      if !e.Parsed? then e.Fail() else ArgsLoop(toks, e.rest, args + [e.value], true, false)
  }

  /** `parse_statement` from position `p`. */
  function StatementAt(toks: seq<Token>, p: nat): (r: Outcome<Statement>)
    requires p <= |toks|
    ensures r.Parsed? ==> p < r.rest <= |toks| && toks[r.rest - 1] == Punctuator(";")
  {
    var e := ExpressionAt(toks, p);
    if !e.Parsed? then e.Fail()
    else if e.rest < |toks| && toks[e.rest] == Punctuator(";") then Parsed(Statement.Expression(e.value), e.rest + 1)
    else Rejected
  }

  /** The loop of `parse_code_block` from position `p`, and the closing brace. */
  function BlockLoop(toks: seq<Token>, p: nat, stmts: seq<Statement>): (r: Outcome<seq<Statement>>)
    requires p <= |toks|
    ensures r.Parsed? ==> p < r.rest <= |toks| && toks[r.rest - 1] == Punctuator("}")
    ensures r.Parsed? ==> |r.value| >= |stmts| && r.value[..|stmts|] == stmts
    decreases |toks| - p
  {
    if p == |toks| then Rejected
    else if toks[p] == Punctuator("}") then Parsed(stmts, p + 1)
    else
      var s := StatementAt(toks, p);
      if !s.Parsed? then s.Fail() else BlockLoop(toks, s.rest, stmts + [s.value])
  }

  /** `parse_code_block` from position `p`. */
  function CodeBlockAt(toks: seq<Token>, p: nat): (r: Outcome<seq<Statement>>)
    requires p <= |toks|
    ensures r.Parsed? ==> p < r.rest <= |toks| && toks[r.rest - 1] == Punctuator("}")
  {
    BlockLoop(toks, p, [])
  }

  /** The pointer loop of a parameter from position `p`, with `ptr` built so far. */
  function PointerLoop(toks: seq<Token>, p: nat, ptr: Option<Pointer>): (r: Outcome<Option<Pointer>>)
    requires p <= |toks|
    ensures r.Parsed? ==> p <= r.rest <= |toks|
    decreases |toks| - p
  {
    if p < |toks| && toks[p] == Punctuator("*") then
      if p + 1 < |toks| && toks[p + 1].Keyword? then Diverges
      else PointerLoop(toks, p + 1, Some(Pointer(false, false, ptr)))
    else Parsed(ptr, p)
  }

  /** The optional name of a parameter at position `p`. */
  function ParamNameAt(toks: seq<Token>, p: nat): (r: (Option<string>, nat))
    requires p <= |toks|
    ensures r.1 <= |toks| && (r.1 == p || r.1 == p + 1)
  {
    if p < |toks| && toks[p].Identifier? then (Some(toks[p].id), p + 1) else (None, p)
  }

  /** The parameter loop of `parse_declaration` from position `p`, with `params` parsed so far. */
  function ParamsLoop(toks: seq<Token>, p: nat, params: seq<Parameter>): (r: Outcome<seq<Parameter>>)
    requires p <= |toks|
    ensures r.Parsed? ==> p <= r.rest <= |toks| && |r.value| >= |params| && r.value[..|params|] == params
    decreases |toks| - p
  {
    if p == |toks| then Parsed(params, p)
    else if toks[p] == Punctuator(")") then Parsed(params, p + 1)
    else
      var ty := TypeAt(toks, p);
      if !ty.Parsed? then ty.Fail()
      else
        var ptr := PointerLoop(toks, ty.rest, None);
        if !ptr.Parsed? then ptr.Fail()
        else
          var name := ParamNameAt(toks, ptr.rest);
          if name.1 == p then Diverges
          else ParamsLoop(toks, name.1, params + [Parameter(FullType(ty.value, ptr.value), name.0)])
  }

  /** What follows the parameters of a function: a body or a semicolon. */
  function FunctionTailAt(toks: seq<Token>, p: nat, fnTy: Type, name: string): (r: Outcome<Declaration>)
    requires p <= |toks|
    ensures r.Parsed? ==> p < r.rest <= |toks| && r.value.ty == fnTy && r.value.name == name && r.value.pointer.None?
    ensures r.Parsed? ==> (r.value.initializer.None? <==> toks[r.rest - 1] == Punctuator(";"))
    ensures r.Parsed? && r.value.initializer.Some? ==>
      r.value.initializer.value.Function? && toks[r.rest - 1] == Punctuator("}")
  {
    if p < |toks| && toks[p] == Punctuator("{") then
      var body := CodeBlockAt(toks, p + 1);
      if !body.Parsed? then body.Fail()
      else Parsed(Declaration(fnTy, None, name, Some(Initializer.Function(body.value))), body.rest)
    else if p < |toks| && toks[p] == Punctuator(";") then Parsed(Declaration(fnTy, None, name, None), p + 1)
    else Rejected
  }

  /** `parse_declaration` from position `p`. */
  function DeclarationAt(toks: seq<Token>, p: nat): (r: Outcome<Declaration>)
    requires p <= |toks|
    ensures r.Parsed? ==> p < r.rest <= |toks| && r.value.pointer.None?
    ensures r.Parsed? ==> toks[r.rest - 1] == Punctuator(";") || toks[r.rest - 1] == Punctuator("}")
    ensures r.Parsed? && r.value.initializer.Some? ==>
      r.value.initializer.value.Function? && r.value.ty.base.Function? && !r.value.ty.constant
  {
    var ty := TypeAt(toks, p);
    if !ty.Parsed? then ty.Fail()
    else
      var name := IdentifierAt(toks, ty.rest);
      if !name.Parsed? then name.Fail()
      else
        var q := name.rest;
        if q == |toks| || !toks[q].Punctuator? then Unsupported
        else if toks[q].punct == ";" then Parsed(Declaration(ty.value, None, name.value, None), q + 1)
        else if toks[q].punct == "=" then Unsupported
        else if toks[q].punct == "(" then
          var params := ParamsLoop(toks, q + 1, []);
          if !params.Parsed? then params.Fail()
          else FunctionTailAt(toks, params.rest, Type(BaseType.Function(ty.value, params.value), false), name.value)
        else Rejected
  }

  /** The loop of `parse` from position `p`, with `decls` parsed so far. */
  function DeclarationsLoop(toks: seq<Token>, p: nat, decls: seq<Declaration>): (r: Outcome<seq<Declaration>>)
    requires p <= |toks|
    ensures r.Parsed? ==> r.rest == |toks| && |r.value| >= |decls| && r.value[..|decls|] == decls
    ensures r.Parsed? ==> |r.value| - |decls| <= |toks| - p
    decreases |toks| - p
  {
    if p == |toks| then Parsed(decls, p)
    else
      var d := DeclarationAt(toks, p);
      if !d.Parsed? then d.Fail() else DeclarationsLoop(toks, d.rest, decls + [d.value])
  }

  /** `parse`: declarations until the tokens run out. */
  function ParseTokens(toks: seq<Token>): (r: Outcome<seq<Declaration>>)
    ensures r.Parsed? ==> r.rest == |toks|
  {
    DeclarationsLoop(toks, 0, [])
  }

  // -------------------------------------------------------------- parser

  /** The peekable token iterator the parsing functions share. */
  class Parser {
    const tokens: seq<Token>
    var pos: nat

    ghost predicate Valid()
      reads this
    {
      pos <= |tokens|
    }

    constructor(tokens: seq<Token>)
      ensures this.tokens == tokens && pos == 0 && Valid()
    {
      this.tokens := tokens;
      pos := 0;
    }

    /** `peek()`. */
    function Peek(): (t: Option<Token>)
      reads this
      requires Valid()
      ensures t.Some? <==> pos < |tokens|
      ensures t.Some? ==> t.value == tokens[pos]
    {
      if pos < |tokens| then Some(tokens[pos]) else None
    }

    /** `next()`. */
    method Next() returns (t: Option<Token>)
      requires Valid()
      modifies this
      ensures Valid() && t == old(Peek())
      ensures pos == if old(pos) < |tokens| then old(pos) + 1 else old(pos)
    {
      t := Peek();
      if pos < |tokens| {
        pos := pos + 1;
      }
    }

    method ParseIdentifier() returns (r: Outcome<string>)
      requires Valid()
      modifies this
      ensures Valid() && r == IdentifierAt(tokens, old(pos)) && (r.Parsed? ==> pos == r.rest)
    {
      var next := Next();
      if next.Some? && next.value.Identifier? {
        return Parsed(next.value.id, pos);
      }
      return Rejected;
    }

    method ParseType() returns (r: Outcome<Type>)
      requires Valid()
      modifies this
      ensures Valid() && r == TypeAt(tokens, old(pos)) && (r.Parsed? ==> pos == r.rest)
    {
      var base: Option<PrimitiveType> := None;
      var constant := false;
      while Peek().Some?
        invariant Valid() && TypeLoop(tokens, pos, base, constant) == TypeAt(tokens, old(pos))
        decreases |tokens| - pos
      {
        var t := Peek().value;
        if t == Keyword("char") {
          var _ := Next();
          if base.Some? {
            return Rejected;
          }
          base := Some(Char);
        } else if t == Keyword("const") {
          var _ := Next();
          constant := true;
        } else if t == Keyword("int") {
          var _ := Next();
          if base.Some? {
            return Rejected;
          }
          base := Some(Int);
        } else if t.Punctuator? {
          break;
        } else if t.Identifier? {
          if base.Some? {
            break;
          }
          var _ := Next();
          return Unsupported;
        } else {
          return Rejected;
        }
      }
      r := Parsed(GatheredType(base, constant), pos);
    }

    method ParsePrimaryExpression() returns (r: Outcome<Expression>)
      requires Valid()
      modifies this
      ensures Valid() && r == PrimaryAt(tokens, old(pos)) && (r.Parsed? ==> pos == r.rest)
    {
      var next := Next();
      if next.Some? && next.value.Identifier? {
        return Parsed(Expression.Identifier(next.value.id, None), pos);
      } else if next.Some? && next.value.StringLiteral? {
        return Parsed(Expression.String(next.value.text, None), pos);
      }
      return Rejected;
    }

    method ParseExpression() returns (r: Outcome<Expression>)
      requires Valid()
      modifies this
      ensures Valid() && r == ExpressionAt(tokens, old(pos)) && (r.Parsed? ==> pos == r.rest)
      decreases |tokens| - pos, 0
    {
      ghost var start := pos;
      var prim := ParsePrimaryExpression();
      if !prim.Parsed? {
        return prim.Fail();
      }
      var lhs := prim.value;
      while Peek().Some?
        invariant Valid() && start < pos
        invariant PostfixLoop(tokens, pos, lhs) == ExpressionAt(tokens, start)
        decreases |tokens| - pos
      {
        var t := Peek().value;
        if !t.Punctuator? {
          return Rejected;
        }
        if t.punct == ";" || t.punct == "," || t.punct == ")" {
          break;
        }
        if t.punct != "(" {
          // the loop would peek this token forever
          return Diverges;
        }
        var _ := Next();
        var args := ParseArguments();
        if !args.Parsed? {
          return args.Fail();
        }
        lhs := Expression.FunctionCall(lhs, args.value, None);
      }
      r := Parsed(lhs, pos);
    }

    /** The argument loop of `parse_expression`, after the opening parenthesis. */
    method ParseArguments() returns (r: Outcome<seq<Expression>>)
      requires Valid()
      modifies this
      ensures Valid() && r == ArgsLoop(tokens, old(pos), [], false, false) && (r.Parsed? ==> pos == r.rest)
      decreases |tokens| - pos, 1
    {
      ghost var start := pos;
      var args: seq<Expression> := [];
      var commaExpected := false;
      var trailingComma := false;
      while Peek().Some?
        invariant Valid() && start <= pos
        invariant ArgsLoop(tokens, pos, args, commaExpected, trailingComma) == ArgsLoop(tokens, start, [], false, false)
        decreases |tokens| - pos
      {
        var t := Peek().value;
        if t == Punctuator(")") {
          if trailingComma {
            return Rejected;
          }
          var _ := Next();
          break;
        } else if commaExpected {
          if t == Punctuator(",") {
            var _ := Next();
            trailingComma := true;
            commaExpected := false;
            continue;
          }
          return Rejected;
        } else {
          var e := ParseExpression();
          if !e.Parsed? {
            return e.Fail();
          }
          args := args + [e.value];
          trailingComma := false;
          commaExpected := true;
        }
      }
      r := Parsed(args, pos);
    }

    method ParseStatement() returns (r: Outcome<Statement>)
      requires Valid()
      modifies this
      ensures Valid() && r == StatementAt(tokens, old(pos)) && (r.Parsed? ==> pos == r.rest)
    {
      var result := ParseExpression();
      if !result.Parsed? {
        return result.Fail();
      }
      var next := Next();
      if next != Some(Punctuator(";")) {
        return Rejected;
      }
      r := Parsed(Statement.Expression(result.value), pos);
    }

    method ParseCodeBlock() returns (r: Outcome<seq<Statement>>)
      requires Valid()
      modifies this
      ensures Valid() && r == CodeBlockAt(tokens, old(pos)) && (r.Parsed? ==> pos == r.rest)
    {
      var result: seq<Statement> := [];
      while Peek().Some?
        invariant Valid() && BlockLoop(tokens, pos, result) == CodeBlockAt(tokens, old(pos))
        decreases |tokens| - pos
      {
        if Peek().value == Punctuator("}") {
          break;
        }
        var s := ParseStatement();
        if !s.Parsed? {
          return s.Fail();
        }
        result := result + [s.value];
      }
      var next := Next();
      if next != Some(Punctuator("}")) {
        return Rejected;
      }
      r := Parsed(result, pos);
    }

    /** The pointer loop of a parameter: each `*` wraps the pointer built so far. */
    method ParsePointers() returns (r: Outcome<Option<Pointer>>)
      requires Valid()
      modifies this
      ensures Valid() && r == PointerLoop(tokens, old(pos), None) && (r.Parsed? ==> pos == r.rest)
    {
      var pointer: Option<Pointer> := None;
      while Peek().Some? && Peek().value.Punctuator?
        invariant Valid() && PointerLoop(tokens, pos, pointer) == PointerLoop(tokens, old(pos), None)
        decreases |tokens| - pos
      {
        if Peek().value.punct != "*" {
          break;
        }
        var _ := Next();
        var resultPtr := Pointer(false, false, pointer);
        if Peek().Some? && Peek().value.Keyword? {
          // the qualifier loop would peek this keyword forever
          return Diverges;
        }
        pointer := Some(resultPtr);
      }
      r := Parsed(pointer, pos);
    }

    /** The parameter loop of `parse_declaration`, after the opening parenthesis. */
    method ParseParameters() returns (r: Outcome<seq<Parameter>>)
      requires Valid()
      modifies this
      ensures Valid() && r == ParamsLoop(tokens, old(pos), []) && (r.Parsed? ==> pos == r.rest)
    {
      var params: seq<Parameter> := [];
      while Peek().Some?
        invariant Valid() && ParamsLoop(tokens, pos, params) == ParamsLoop(tokens, old(pos), [])
        decreases |tokens| - pos
      {
        if Peek().value == Punctuator(")") {
          var _ := Next();
          break;
        }
        var round := pos;
        var ty := ParseType();
        if !ty.Parsed? {
          return ty.Fail();
        }
        var pointer := ParsePointers();
        if !pointer.Parsed? {
          return pointer.Fail();
        }
        var name: Option<string> := None;
        if Peek().Some? && Peek().value.Identifier? {
          var next := Next();
          name := Some(next.value.id);
        }
        if pos == round {
          // nothing was consumed: the loop would repeat this round forever
          return Diverges;
        }
        params := params + [Parameter(FullType(ty.value, pointer.value), name)];
      }
      r := Parsed(params, pos);
    }

    method ParseDeclaration() returns (r: Outcome<Declaration>)
      requires Valid()
      modifies this
      ensures Valid() && r == DeclarationAt(tokens, old(pos)) && (r.Parsed? ==> pos == r.rest)
    {
      var ty := ParseType();
      if !ty.Parsed? {
        return ty.Fail();
      }
      var name := ParseIdentifier();
      if !name.Parsed? {
        return name.Fail();
      }
      var next := Next();
      if next.None? || !next.value.Punctuator? {
        return Unsupported;
      }
      var p := next.value.punct;
      if p == ";" {
        return Parsed(Declaration(ty.value, None, name.value, None), pos);
      } else if p == "=" {
        return Unsupported;
      } else if p != "(" {
        return Rejected;
      }
      var params := ParseParameters();
      if !params.Parsed? {
        return params.Fail();
      }
      r := ParseFunctionTail(Type(BaseType.Function(ty.value, params.value), false), name.value);
    }

    /** What follows a function's parameters: a body or a semicolon. */
    method ParseFunctionTail(fnTy: Type, name: string) returns (r: Outcome<Declaration>)
      requires Valid()
      modifies this
      ensures Valid() && r == FunctionTailAt(tokens, old(pos), fnTy, name) && (r.Parsed? ==> pos == r.rest)
    {
      var next := Next();
      if next == Some(Punctuator("{")) {
        var body := ParseCodeBlock();
        if !body.Parsed? {
          return body.Fail();
        }
        r := Parsed(Declaration(fnTy, None, name, Some(Initializer.Function(body.value))), pos);
      } else if next == Some(Punctuator(";")) {
        r := Parsed(Declaration(fnTy, None, name, None), pos);
      } else {
        r := Rejected;
      }
    }
  }

  /** `parse`: one declaration per round until the tokens run out. */
  method Parse(tokens: seq<Token>) returns (r: Outcome<seq<Declaration>>)
    ensures r == ParseTokens(tokens)
  {
    var parser := new Parser(tokens);
    var result: seq<Declaration> := [];
    while parser.Peek().Some?
      invariant parser.Valid() && parser.tokens == tokens
      invariant DeclarationsLoop(tokens, parser.pos, result) == ParseTokens(tokens)
      decreases |tokens| - parser.pos
    {
      var d := parser.ParseDeclaration();
      if !d.Parsed? {
        return d.Fail();
      }
      result := result + [d.value];
    }
    r := Parsed(result, parser.pos);
  }
}
