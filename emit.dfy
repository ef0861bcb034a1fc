/** What the encoder writes, as pure functions.

    Each `Emit*` function gives the `push_node` calls (kind and declared
    count) that the matching `serialize_*` routine makes, in call order, or
    `None` when the walk reaches a `with` statement, where the encoder
    panics. `Encode` turns the calls of a whole program into its bytes.

    Lists are walked front to back, so each list function splits off the
    LAST element: the calls for a prefix are what the encoder's loop has
    written when it reaches the next element. */
module Emit {
  import opened Wrappers
  import opened Syntax
  import opened Wire
  import K = Tags

  /** The bytes `serialize_ast_bin` returns, or `None` if it panics. */
  function Encode(p: Program): (r: Option<seq<K.u8>>)
    ensures r.Some? ==> |r.value| % RecordSize == 0 && |r.value| >= RecordSize
  {
    var hs :- EmitProgram(p);
    Some(Bytes(hs))
  }

  /** The root `Program` record, counting the top-level items, then each item. */
  function EmitProgram(p: Program): Option<seq<Header>>
  {
    match p
    case Module(body) =>
      var items :- EmitItems(body);
      Some([Header(K.Program, |body|)] + items)
    case Script(stmts) =>
      var ss :- EmitStmts(stmts);
      Some([Header(K.Program, |stmts|)] + ss)
  }

  function EmitItems(items: seq<ModuleItem>): Option<seq<Header>>
  {
    if items == [] then Some([])
    else
      var front :- EmitItems(items[..|items| - 1]);
      var last :- EmitItem(items[|items| - 1]);
      Some(front + last)
  }

  function EmitItem(item: ModuleItem): Option<seq<Header>>
  {
    match item
    case ModuleDeclItem(d) => Some(EmitModuleDecl(d))
    case StmtItem(s) => EmitStmt(s)
  }

  /** `serialize_module_decl`: one leaf record per import/export form. */
  function EmitModuleDecl(d: ModuleDecl): seq<Header>
  {
    match d
    case Import => [Header(K.Import, 0)]
    case ExportDecl => [Header(K.ExportDecl, 0)]
    case ExportNamed => [Header(K.ExportNamed, 0)]
    case ExportDefaultDecl => [Header(K.ExportDefaultDecl, 0)]
    case ExportDefaultExpr => [Header(K.ExportDefaultExpr, 0)]
    case ExportAll => [Header(K.ExportAll, 0)]
    case TsImportEquals => [Header(K.TsImportEquals, 0)]
    case TsExportAssignment => [Header(K.TsExportAssignment, 0)]
    case TsNamespaceExport => [Header(K.TsNamespaceExport, 0)]
  }

  /** `serialize_stmt`. */
  function EmitStmt(s: Stmt): Option<seq<Header>>
    decreases s, 1
  {
    match s
    case Block(b) => EmitBlock(b)
    case Empty => Some([Header(K.Empty, 0)])
    case Debugger => Some([Header(K.Debugger, 0)])
    case With => None
    case Return(arg) => Some([Header(K.Return, if arg.Some? then 1 else 0)])
    case Labeled(_) => Some([Header(K.Labeled, 1)])
    case Break(hasLabel) => Some([Header(K.Break, if hasLabel then 1 else 0)])
    case Continue(hasLabel) => Some([Header(K.Continue, if hasLabel then 1 else 0)])
    case If(_, _, _) => EmitIf(s)
    case Switch(cases) => Some([Header(K.Switch, |cases|)] + EmitCases(cases))
    case Throw(_) => Some([Header(K.Throw, 1)])
    case Try(_, _, _) => EmitTry(s)
    case While(_, _) => EmitWhile(s)
    case DoWhile(_, _) => EmitDoWhile(s)
    case For(_, _, _, _) => EmitFor(s)
    case ForIn(_, _, _) => EmitForIn(s)
    case ForOf(_, _, _) => EmitForOf(s)
    case DeclStmt(decl) => EmitDecl(decl)
    case ExprStmt(_) => EmitExprStmt(s)
  }

  /** An `if`: 3 children with an `else` branch and 2 without; the test, the
      consequent, then the alternative. */
  function EmitIf(s: Stmt): Option<seq<Header>>
    requires s.If?
    decreases s, 0
  {
    var test, cons, alt := s.test, s.cons, s.alt;
    var t :- EmitExpr(test);
    var c :- EmitStmt(cons);
    var a :- if alt.Some? then EmitStmt(alt.value) else Some([]);
    Some([Header(K.If, if alt.Some? then 3 else 2)] + t + c + a)
  }

  /** A `try`: counts the block, the handler and the finalizer, but writes only
      the block. */
  function EmitTry(s: Stmt): Option<seq<Header>>
    requires s.Try?
    decreases s, 0
  {
    var block, handler, finalizer := s.block, s.handler, s.finalizer;
    var b :- EmitBlock(block);
    Some([Header(K.Try, 1 + (if finalizer.Some? then 1 else 0) + (if handler.Some? then 1 else 0))] + b)
  }

  /** A `while`: the test, then the body. */
  function EmitWhile(s: Stmt): Option<seq<Header>>
    requires s.While?
    decreases s, 0
  {
    var test, body := s.test, s.body;
    var t :- EmitExpr(test);
    var b :- EmitStmt(body);
    Some([Header(K.While, 2)] + t + b)
  }

  /** A `do`-`while`: the test is written before the body. */
  function EmitDoWhile(s: Stmt): Option<seq<Header>>
    requires s.DoWhile?
    decreases s, 0
  {
    var body, test := s.body, s.test;
    var t :- EmitExpr(test);
    var b :- EmitStmt(body);
    Some([Header(K.DoWhile, 2)] + t + b)
  }

  /** A C-style `for`: always 4 children, with an `EmptyExpr` placeholder for
      each absent slot; a `var` initializer is written as a declaration. */
  function EmitFor(s: Stmt): Option<seq<Header>>
    requires s.For?
    decreases s, 0
  {
    var init, test, update, body := s.forInit, s.forTest, s.forUpdate, s.body;
    var i :- EmitForInit(init);
    var t :- EmitOptExpr(test);
    var u :- EmitOptExpr(update);
    var b :- EmitStmt(body);
    Some([Header(K.For, 4)] + i + t + u + b)
  }

  /** A `for`-`in`: declares 3 children but writes only the right-hand side and
      the body; the left-hand side is not written. */
  function EmitForIn(s: Stmt): Option<seq<Header>>
    requires s.ForIn?
    decreases s, 0
  {
    var right, body := s.right, s.body;
    var r :- EmitExpr(right);
    var b :- EmitStmt(body);
    Some([Header(K.ForIn, 3)] + r + b)
  }

  /** A `for`-`of`: declares 3 children but writes only the right-hand side and
      the body; the left-hand side is not written. */
  function EmitForOf(s: Stmt): Option<seq<Header>>
    requires s.ForOf?
    decreases s, 0
  {
    var right, body := s.right, s.body;
    var r :- EmitExpr(right);
    var b :- EmitStmt(body);
    Some([Header(K.ForOf, 3)] + r + b)
  }

  /** An expression statement: one child, the expression. */
  function EmitExprStmt(s: Stmt): Option<seq<Header>>
    requires s.ExprStmt?
    decreases s, 0
  {
    var expr := s.expr;
    var e :- EmitExpr(expr);
    Some([Header(K.Expr, 1)] + e)
  }

  /** A block statement: its statement count, then each statement. */
  function EmitBlock(b: BlockStmt): Option<seq<Header>>
    decreases b, 1
  {
    var ss :- EmitStmts(b.stmts);
    Some([Header(K.Block, |b.stmts|)] + ss)
  }

  function EmitStmts(stmts: seq<Stmt>): Option<seq<Header>>
    decreases stmts, 0
  {
    if stmts == [] then Some([])
    else
      var front :- EmitStmts(stmts[..|stmts| - 1]);
      var last :- EmitStmt(stmts[|stmts| - 1]);
      Some(front + last)
  }

  /** The count a `case` clause declares: its statements, plus one for a test. */
  function CaseCount(c: SwitchCase): nat
  {
    if c.test.Some? then |c.cons| + 1 else |c.cons|
  }

  /** The clause headers of a `switch`; nothing inside a clause is written. */
  function EmitCases(cases: seq<SwitchCase>): seq<Header>
  {
    if cases == [] then []
    else EmitCases(cases[..|cases| - 1]) + [Header(K.SwitchCase, CaseCount(cases[|cases| - 1]))]
  }

  /** An absent `for` slot becomes an `EmptyExpr` placeholder record. */
  function EmitOptExpr(e: Option<Expr>): Option<seq<Header>>
    decreases e, 0
  {
    match e
    case None => Some([Header(K.EmptyExpr, 0)])
    case Some(x) => EmitExpr(x)
  }

  function EmitForInit(init: Option<ForInit>): Option<seq<Header>>
    decreases init, 0
  {
    match init
    case None => Some([Header(K.EmptyExpr, 0)])
    case Some(InitVarDecl(v)) => EmitVarDecl(v)
    case Some(InitExpr(x)) => EmitExpr(x)
  }

  /** `serialize_decl`. */
  function EmitDecl(d: Decl): Option<seq<Header>>
    decreases d, 0
  {
    match d
    case Class => Some([Header(K.Class, 0)])
    case Fn(fnBody) =>
      var b :- match fnBody
        case Some(body) => EmitBlock(body)
        case None => Some([]);
      Some([Header(K.Fn, 0)] + b)
    case Var(v) => EmitVarDecl(v)
    case Using(decls) => Some([Header(K.Using, |decls|)])
    case TsInterface(extendsCount, hasTypeParams) =>
      Some([Header(K.TsInterface, 2 + extendsCount + if hasTypeParams then 1 else 0)])
    case TsTypeAlias => Some([Header(K.TsTypeAlias, 0)])
    case TsEnum(memberCount) => Some([Header(K.TsEnum, 1 + memberCount)])
    case TsModule => Some([Header(K.TsModule, 0)])
  }

  /** A variable declaration: its declarator count, then each declarator. */
  function EmitVarDecl(v: VarDecl): Option<seq<Header>>
    decreases v, 0
  {
    var ds :- EmitDeclarators(v.decls);
    Some([Header(K.Var, |v.decls|)] + ds)
  }

  function EmitDeclarators(ds: seq<VarDeclarator>): Option<seq<Header>>
    decreases ds, 0
  {
    if ds == [] then Some([])
    else
      var front :- EmitDeclarators(ds[..|ds| - 1]);
      var last :- EmitDeclarator(ds[|ds| - 1]);
      Some(front + last)
  }

  /** A declarator declares 2 with an initializer and 1 without; then the
      name (an identifier or expression pattern; other patterns write
      nothing), then the initializer. */
  function EmitDeclarator(d: VarDeclarator): Option<seq<Header>>
    decreases d, 0
  {
    var name :- match d.name
      case PatIdent => Some([Header(K.Ident, 0)])
      case PatExpr(x) => EmitExpr(x)
      case _ => Some([]);
    var init :- if d.init.Some? then EmitExpr(d.init.value) else Some([]);
    Some([Header(K.VarDeclarator, if d.init.Some? then 2 else 1)] + name + init)
  }

  /** `serialize_expr`. */
  function EmitExpr(e: Expr): Option<seq<Header>>
    decreases e, 1
  {
    match e
    case This => Some([Header(K.This, 0)])
    case Array(elems) => Some([Header(K.Array, |elems|)])
    case Object(_) => EmitObject(e)
    case FnExpr => Some([Header(K.FnExpr, 0)])
    case Unary(_) => Some([Header(K.Unary, 1)])
    case Update(_) => EmitUpdate(e)
    case Bin(_, _) => EmitBin(e)
    case Assign(_, _) => EmitAssign(e)
    case Member(m) => EmitMember(m)
    case SuperProp => Some([Header(K.SuperProp, 2)])
    case Cond(_, _, _) => EmitCond(e)
    case Call(_, _) => EmitCall(e)
    case New(_, _, _) => EmitNew(e)
    case Seq(_) => EmitSeq(e)
    case Ident => Some([Header(K.Ident, 0)])
    case Lit(lit) => Some(EmitLit(lit))
    case Tpl => Some([Header(K.Tpl, 0)])
    case TaggedTpl => Some([Header(K.TaggedTpl, 0)])
    case Arrow(_, _, _, _) => EmitArrow(e)
    case ClassExpr => Some([])
    case Yield(_) => EmitYield(e)
    case MetaProp => Some([Header(K.MetaProp, 0)])
    case Await(_) => EmitAwait(e)
    case Paren(_) => EmitParen(e)
    case JSXMember => Some([Header(K.JSXMember, 0)])
    case JSXNamespacedName => Some([Header(K.JSXNamespacedName, 0)])
    case JSXEmpty => Some([Header(K.JSXEmpty, 0)])
    case JSXElement => Some([Header(K.JSXElement, 0)])
    case JSXFragment => Some([Header(K.JSXFragment, 0)])
    case TsTypeAssertion => Some([Header(K.TsTypeAssertion, 0)])
    case TsConstAssertion(_) => EmitTsConstAssertion(e)
    case TsNonNull(_) => EmitTsNonNull(e)
    case TsAs(_, _) => EmitTsAs(e)
    case TsInstantiation(_) => EmitTsInstantiation(e)
    case TsSatisfies(_, _) => EmitTsSatisfies(e)
    case PrivateName => Some([Header(K.PrivateName, 0)])
    case OptChain => Some([Header(K.OptChain, 0)])
    case Invalid => Some([])
  }

  /** The expression forms the encoder descends into. */
  predicate HasVisitedChildren(e: Expr)
  {
    e.Object?
    || e.Update?
    || e.Bin?
    || e.Assign?
    || e.Member?
    || e.Cond?
    || e.Call?
    || e.New?
    || e.Seq?
    || e.Arrow?
    || e.Yield?
    || e.Await?
    || e.Paren?
    || e.TsConstAssertion?
    || e.TsNonNull?
    || e.TsAs?
    || e.TsInstantiation?
    || e.TsSatisfies?
  }

  /** An object literal: counts its members, then writes each. */
  function EmitObject(e: Expr): Option<seq<Header>>
    requires e.Object?
    decreases e, 0
  {
    var props := e.props;
    var ps :- EmitProps(props);
    Some([Header(K.Object, |props|)] + ps)
  }

  /** `++`/`--`: one child, the operand. */
  function EmitUpdate(e: Expr): Option<seq<Header>>
    requires e.Update?
    decreases e, 0
  {
    var arg := e.arg;
    var a :- EmitExpr(arg);
    Some([Header(K.Update, 1)] + a)
  }

  /** A binary expression: the left, then the right operand. */
  function EmitBin(e: Expr): Option<seq<Header>>
    requires e.Bin?
    decreases e, 0
  {
    var left, right := e.left, e.right;
    var l :- EmitExpr(left);
    var r :- EmitExpr(right);
    Some([Header(K.Bin, 2)] + l + r)
  }

  /** An assignment: 2 children; an identifier or member target is written, any
      other target is not; then the value. */
  function EmitAssign(e: Expr): Option<seq<Header>>
    requires e.Assign?
    decreases e, 0
  {
    var target, value := e.target, e.value;
    var t :- match target
      case TargetIdent => Some([Header(K.Ident, 0)])
      case TargetMember(m) => EmitMember(m)
      case TargetOther => Some([]);
    var v :- EmitExpr(value);
    Some([Header(K.Assign, 2)] + t + v)
  }

  /** A conditional expression: test, consequent, alternative. */
  function EmitCond(e: Expr): Option<seq<Header>>
    requires e.Cond?
    decreases e, 0
  {
    var test, cons, alt := e.test, e.cons, e.alt;
    var t :- EmitExpr(test);
    var c :- EmitExpr(cons);
    var a :- EmitExpr(alt);
    Some([Header(K.Cond, 3)] + t + c + a)
  }

  /** A call: declares the callee and the arguments; a `super` or `import`
      callee writes nothing; then the arguments. */
  function EmitCall(e: Expr): Option<seq<Header>>
    requires e.Call?
    decreases e, 0
  {
    var callee, args := e.callee, e.args;
    var c :- match callee
      case ExprCallee(x) => EmitExpr(x)
      case _ => Some([]);
    var a :- EmitArgs(args);
    Some([Header(K.Call, 1 + |args|)] + c + a)
  }

  /** A `new` expression: counts the callee, the arguments and the type
      arguments; writes the callee then the arguments. */
  function EmitNew(e: Expr): Option<seq<Header>>
    requires e.New?
    decreases e, 0
  {
    var callee, args, hasTypeArgs := e.newCallee, e.newArgs, e.hasTypeArgs;
    var c :- EmitExpr(callee);
    var a :- EmitNewArgs(args);
    var count := 1 + (if args.ArgList? then |args.args| else 0) + (if hasTypeArgs then 1 else 0);
    Some([Header(K.New, count)] + c + a)
  }

  /** A comma sequence: counts the expressions, then writes each. */
  function EmitSeq(e: Expr): Option<seq<Header>>
    requires e.Seq?
    decreases e, 0
  {
    var exprs := e.exprs;
    var xs :- EmitExprs(exprs);
    Some([Header(K.Seq, |exprs|)] + xs)
  }

  /** An arrow function: counts the body, the parameters, the return type and
      the type parameters; writes only the body. */
  function EmitArrow(e: Expr): Option<seq<Header>>
    requires e.Arrow?
    decreases e, 0
  {
    var paramCount, body, hasReturnType, hasTypeParams := e.paramCount, e.body, e.hasReturnType, e.hasTypeParams;
    var b :- EmitArrowBody(body);
    var count := 1 + paramCount + (if hasReturnType then 1 else 0) + (if hasTypeParams then 1 else 0);
    Some([Header(K.Arrow, count)] + b)
  }

  /** A `yield`: one child when it has an argument. */
  function EmitYield(e: Expr): Option<seq<Header>>
    requires e.Yield?
    decreases e, 0
  {
    var arg := e.yieldArg;
    var a :- if arg.Some? then EmitExpr(arg.value) else Some([]);
    Some([Header(K.Yield, if arg.Some? then 1 else 0)] + a)
  }

  /** An `await`: one child, the operand. */
  function EmitAwait(e: Expr): Option<seq<Header>>
    requires e.Await?
    decreases e, 0
  {
    var arg := e.awaitArg;
    var a :- EmitExpr(arg);
    Some([Header(K.Await, 1)] + a)
  }

  /** A parenthesized expression, written as a one-element `Seq`. */
  function EmitParen(e: Expr): Option<seq<Header>>
    requires e.Paren?
    decreases e, 0
  {
    var inner := e.inner;
    var x :- EmitExpr(inner);
    Some([Header(K.Seq, 1)] + x)
  }

  /** An `as const` assertion: one child, the expression. */
  function EmitTsConstAssertion(e: Expr): Option<seq<Header>>
    requires e.TsConstAssertion?
    decreases e, 0
  {
    var x := e.asserted;
    var a :- EmitExpr(x);
    Some([Header(K.TsConstAssertion, 1)] + a)
  }

  /** A non-null assertion: one child, the expression. */
  function EmitTsNonNull(e: Expr): Option<seq<Header>>
    requires e.TsNonNull?
    decreases e, 0
  {
    var x := e.nonNull;
    var a :- EmitExpr(x);
    Some([Header(K.TsNonNull, 1)] + a)
  }

  /** An `as` expression: declares 2 children; the type writes nothing. */
  function EmitTsAs(e: Expr): Option<seq<Header>>
    requires e.TsAs?
    decreases e, 0
  {
    var x, t := e.asExpr, e.asType;
    var a :- EmitExpr(x);
    Some([Header(K.TsAs, 2)] + a + EmitTsType(t))
  }

  /** An instantiation expression: declares 2 children; only the expression is written. */
  function EmitTsInstantiation(e: Expr): Option<seq<Header>>
    requires e.TsInstantiation?
    decreases e, 0
  {
    var x := e.instantiated;
    var a :- EmitExpr(x);
    Some([Header(K.TsInstantiation, 2)] + a)
  }

  /** A `satisfies` expression: declares 2 children; the type writes nothing. */
  function EmitTsSatisfies(e: Expr): Option<seq<Header>>
    requires e.TsSatisfies?
    decreases e, 0
  {
    var x, t := e.satisfiesExpr, e.satisfiesType;
    var a :- EmitExpr(x);
    Some([Header(K.TsSatisfies, 2)] + a + EmitTsType(t))
  }

  /** An arrow function's body: a block, or a bare expression. */
  function EmitArrowBody(body: ArrowBody): Option<seq<Header>>
    decreases body, 0
  {
    match body
    case BodyBlock(b) => EmitBlock(b)
    case BodyExpr(x) => EmitExpr(x)
  }

  /** A member expression declares 2: the object, then a computed property;
      a plain or private property name writes nothing. */
  function EmitMember(m: MemberExpr): Option<seq<Header>>
    decreases m, 0
  {
    var o :- EmitExpr(m.obj);
    var p :- match m.prop
      case Computed(x) => EmitExpr(x)
      case _ => Some([]);
    Some([Header(K.Member, 2)] + o + p)
  }

  function EmitExprs(exprs: seq<Expr>): Option<seq<Header>>
    decreases exprs, 0
  {
    if exprs == [] then Some([])
    else
      var front :- EmitExprs(exprs[..|exprs| - 1]);
      var last :- EmitExpr(exprs[|exprs| - 1]);
      Some(front + last)
  }

  function EmitArgs(args: seq<ExprOrSpread>): Option<seq<Header>>
    decreases args, 0
  {
    if args == [] then Some([])
    else
      var front :- EmitArgs(args[..|args| - 1]);
      var last :- EmitArg(args[|args| - 1]);
      Some(front + last)
  }

  /** The argument list of `new`, which may be absent (`new C`). */
  function EmitNewArgs(args: NewArgs): Option<seq<Header>>
    decreases args, 0
  {
    match args
    case ArgList(xs) => EmitArgs(xs)
    case NoArgs => Some([])
  }

  /** A spread argument is preceded by a `Spread` marker declaring 1. */
  function EmitArg(a: ExprOrSpread): Option<seq<Header>>
    decreases a, 0
  {
    var x :- EmitExpr(a.expr);
    Some((if a.spread then [Header(K.Spread, 1)] else []) + x)
  }

  function EmitProps(props: seq<PropOrSpread>): Option<seq<Header>>
    decreases props, 0
  {
    if props == [] then Some([])
    else
      var front :- EmitProps(props[..|props| - 1]);
      var last :- EmitProp(props[|props| - 1]);
      Some(front + last)
  }

  /** One object-literal member. */
  function EmitProp(p: PropOrSpread): Option<seq<Header>>
    decreases p, 0
  {
    match p
    case SpreadProp(x) =>
      var a :- EmitExpr(x);
      Some([Header(K.Spread, 1)] + a)
    case Shorthand => Some([Header(K.Ident, 0)])
    case KeyValue(v) => EmitExpr(v)
    case AssignProp(v) =>
      var a :- EmitExpr(v);
      Some([Header(K.Assign, 2), Header(K.Ident, 0)] + a)
    case Getter(Some(body)) => EmitBlock(body)
    case Getter(None) => Some([])
    case Setter(Some(body)) => EmitBlock(body)
    case Setter(None) => Some([])
    case Method(Some(body)) => EmitBlock(body)
    case Method(None) => Some([])
  }

  /** `serialize_lit`: one leaf record per literal kind. */
  function EmitLit(l: Lit): seq<Header>
  {
    match l
    case Str => [Header(K.StringLiteral, 0)]
    case Bool => [Header(K.Bool, 0)]
    case Null => [Header(K.Null, 0)]
    case Num => [Header(K.Num, 0)]
    case BigInt => [Header(K.BigInt, 0)]
    case Regex => [Header(K.Regex, 0)]
    case JSXText => [Header(K.JSXText, 0)]
  }

  /** `serialize_ts_type`: every arm of its match is empty. */
  function EmitTsType(t: TsType): seq<Header>
  {
    []
  }

  /** A walk over a list that succeeds has succeeded on every prefix: the
      encoder stops at the first element that panics. */
  lemma {:induction false} ItemsPrefix(xs: seq<ModuleItem>, j: nat)
    requires j <= |xs|
    ensures EmitItems(xs).Some? ==> EmitItems(xs[..j]).Some?
    decreases |xs|
  {
    if j < |xs| {
      assert xs[..|xs| - 1][..j] == xs[..j];
      ItemsPrefix(xs[..|xs| - 1], j);
    } else {
      assert xs[..j] == xs;
    }
  }

  lemma {:induction false} StmtsPrefix(xs: seq<Stmt>, j: nat)
    requires j <= |xs|
    ensures EmitStmts(xs).Some? ==> EmitStmts(xs[..j]).Some?
    decreases |xs|
  {
    if j < |xs| {
      assert xs[..|xs| - 1][..j] == xs[..j];
      StmtsPrefix(xs[..|xs| - 1], j);
    } else {
      assert xs[..j] == xs;
    }
  }

  lemma {:induction false} DeclaratorsPrefix(xs: seq<VarDeclarator>, j: nat)
    requires j <= |xs|
    ensures EmitDeclarators(xs).Some? ==> EmitDeclarators(xs[..j]).Some?
    decreases |xs|
  {
    if j < |xs| {
      assert xs[..|xs| - 1][..j] == xs[..j];
      DeclaratorsPrefix(xs[..|xs| - 1], j);
    } else {
      assert xs[..j] == xs;
    }
  }

  lemma {:induction false} ExprsPrefix(xs: seq<Expr>, j: nat)
    requires j <= |xs|
    ensures EmitExprs(xs).Some? ==> EmitExprs(xs[..j]).Some?
    decreases |xs|
  {
    if j < |xs| {
      assert xs[..|xs| - 1][..j] == xs[..j];
      ExprsPrefix(xs[..|xs| - 1], j);
    } else {
      assert xs[..j] == xs;
    }
  }

  lemma {:induction false} ArgsPrefix(xs: seq<ExprOrSpread>, j: nat)
    requires j <= |xs|
    ensures EmitArgs(xs).Some? ==> EmitArgs(xs[..j]).Some?
    decreases |xs|
  {
    if j < |xs| {
      assert xs[..|xs| - 1][..j] == xs[..j];
      ArgsPrefix(xs[..|xs| - 1], j);
    } else {
      assert xs[..j] == xs;
    }
  }

  lemma {:induction false} PropsPrefix(xs: seq<PropOrSpread>, j: nat)
    requires j <= |xs|
    ensures EmitProps(xs).Some? ==> EmitProps(xs[..j]).Some?
    decreases |xs|
  {
    if j < |xs| {
      assert xs[..|xs| - 1][..j] == xs[..j];
      PropsPrefix(xs[..|xs| - 1], j);
    } else {
      assert xs[..j] == xs;
    }
  }
}
