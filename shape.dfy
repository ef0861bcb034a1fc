/** The part of the syntax the encoder writes completely, and the tree it
    writes for it.

    For most node kinds the count handed to `push_node` is the number of
    child subtrees written after the record, but not for all (a labeled
    statement declares its body and does not write it, a type annotation
    writes nothing, and so on). The `Full*` predicates pick out the programs
    built only from forms whose declared counts match what follows, with
    every count below 127; the `Shape*` functions give the tree written for
    them. The encoder's output for such a program is that tree in pre-order,
    so a decoder that trusts the counts reads it back exactly. */
module Shape {
  import opened Wrappers
  import opened Syntax
  import opened Wire
  import opened Emit
  import opened Decode
  import K = Tags

  predicate FullProgram(p: Program)
  {
    match p
    case Module(body) => |body| < CountLimit && forall i | 0 <= i < |body| :: FullItem(body[i])
    case Script(stmts) => |stmts| < CountLimit && FullStmts(stmts)
  }

  predicate FullItem(item: ModuleItem)
  {
    match item
    case ModuleDeclItem(_) => true
    case StmtItem(s) => FullStmt(s)
  }

  predicate FullStmt(s: Stmt)
  {
    match s
    case Block(b) => FullBlock(b)
    case Empty => true
    case Debugger => true
    case Return(arg) => arg.None?
    case Break(hasLabel) => !hasLabel
    case Continue(hasLabel) => !hasLabel
    case If(test, cons, alt) =>
      FullExpr(test) && FullStmt(cons) && (alt.Some? ==> FullStmt(alt.value))
    case Switch(cases) => |cases| < CountLimit && forall i | 0 <= i < |cases| :: CaseCount(cases[i]) == 0
    case Try(block, handler, finalizer) => handler.None? && finalizer.None? && FullBlock(block)
    case While(test, body) => FullExpr(test) && FullStmt(body)
    case DoWhile(body, test) => FullExpr(test) && FullStmt(body)
    case For(init, test, update, body) =>
      FullForInit(init) && FullOptExpr(test) && FullOptExpr(update) && FullStmt(body)
    case DeclStmt(d) => FullDecl(d)
    case ExprStmt(x) => FullExpr(x)
    case _ => false
  }

  predicate FullBlock(b: BlockStmt)
  {
    |b.stmts| < CountLimit && FullStmts(b.stmts)
  }

  predicate FullStmts(ss: seq<Stmt>)
  {
    forall i | 0 <= i < |ss| :: FullStmt(ss[i])
  }

  predicate FullOptExpr(x: Option<Expr>)
  {
    x.Some? ==> FullExpr(x.value)
  }

  predicate FullForInit(init: Option<ForInit>)
  {
    match init
    case None => true
    case Some(InitVarDecl(v)) => FullVarDecl(v)
    case Some(InitExpr(x)) => FullExpr(x)
  }

  /** Declarations written as one record with count 0, and `var`
      declarations whose names are all identifiers. */
  predicate FullDecl(d: Decl)
  {
    match d
    case Class => true
    case Fn(body) => body.None?
    case Var(v) => FullVarDecl(v)
    case Using(decls) => decls == []
    case TsTypeAlias => true
    case TsModule => true
    case _ => false
  }

  predicate FullVarDecl(v: VarDecl)
  {
    |v.decls| < CountLimit && forall i | 0 <= i < |v.decls| :: FullDeclarator(v.decls[i])
  }

  predicate FullDeclarator(d: VarDeclarator)
  {
    (d.name.PatIdent? || (d.name.PatExpr? && FullExpr(d.name.expr)))
    && (d.init.Some? ==> FullExpr(d.init.value))
  }

  predicate FullExpr(e: Expr)
  {
    match e
    case Array(elems) => elems == []
    case Object(props) => |props| < CountLimit && forall i | 0 <= i < |props| :: FullProp(props[i])
    case Update(arg) => FullExpr(arg)
    case Bin(left, right) => FullExpr(left) && FullExpr(right)
    case Assign(target, value) =>
      (target.TargetIdent? || (target.TargetMember? && FullMember(target.member))) && FullExpr(value)
    case Member(m) => FullMember(m)
    case Cond(test, cons, alt) => FullExpr(test) && FullExpr(cons) && FullExpr(alt)
    case Call(callee, args) =>
      callee.ExprCallee? && FullExpr(callee.calleeExpr)
      && 1 + |args| < CountLimit && forall i | 0 <= i < |args| :: FullExpr(args[i].expr)
    case Seq(exprs) => |exprs| < CountLimit && forall i | 0 <= i < |exprs| :: FullExpr(exprs[i])
    case Arrow(paramCount, body, hasReturnType, hasTypeParams) =>
      paramCount == 0 && !hasReturnType && !hasTypeParams && FullArrowBody(body)
    case Yield(arg) => arg.Some? ==> FullExpr(arg.value)
    case Await(arg) => FullExpr(arg)
    case Paren(inner) => FullExpr(inner)
    case TsConstAssertion(x) => FullExpr(x)
    case TsNonNull(x) => FullExpr(x)
    case Unary(_) => false
    case SuperProp => false
    case New(callee, args, hasTypeArgs) =>
      !hasTypeArgs && FullExpr(callee)
      && (args.ArgList? ==> 1 + |args.args| < CountLimit && forall i | 0 <= i < |args.args| :: FullExpr(args.args[i].expr))
    case ClassExpr => false
    case TsAs(_, _) => false
    case TsInstantiation(_) => false
    case TsSatisfies(_, _) => false
    case Invalid => false
    case _ => true
  }

  /** A member expression with a computed property: its 2 declared children
      are both written. */
  predicate FullMember(m: MemberExpr)
  {
    m.prop.Computed? && FullExpr(m.obj) && FullExpr(m.prop.propExpr)
  }

  predicate FullArrowBody(body: ArrowBody)
  {
    match body
    case BodyBlock(b) => FullBlock(b)
    case BodyExpr(x) => FullExpr(x)
  }

  /** Object members that write exactly one subtree. */
  predicate FullProp(p: PropOrSpread)
  {
    match p
    case SpreadProp(x) => FullExpr(x)
    case Shorthand => true
    case KeyValue(v) => FullExpr(v)
    case AssignProp(v) => FullExpr(v)
    case Getter(body) => body.Some? && FullBlock(body.value)
    case Setter(body) => body.Some? && FullBlock(body.value)
    case Method(body) => body.Some? && FullBlock(body.value)
  }

  /** The tree written for a fully encoded program: the `Program` node over
      its items or statements. */
  function ShapeProgram(p: Program): Tree
    requires FullProgram(p)
  {
    match p
    case Module(body) => Node(K.Program, ShapeItems(body))
    case Script(stmts) => Node(K.Program, ShapeStmts(stmts))
  }

  function ShapeItems(items: seq<ModuleItem>): (ts: seq<Tree>)
    requires forall i | 0 <= i < |items| :: FullItem(items[i])
    ensures |ts| == |items|
  {
    if items == [] then []
    else ShapeItems(items[..|items| - 1]) + [ShapeItem(items[|items| - 1])]
  }

  function ShapeItem(item: ModuleItem): Tree
    requires FullItem(item)
  {
    match item
    case ModuleDeclItem(d) => Node(ModuleDeclKind(d), [])
    case StmtItem(s) => ShapeStmt(s)
  }

  /** The node kind of each import/export form. */
  function ModuleDeclKind(d: ModuleDecl): K.AstNode
  {
    match d
    case Import => K.Import
    case ExportDecl => K.ExportDecl
    case ExportNamed => K.ExportNamed
    case ExportDefaultDecl => K.ExportDefaultDecl
    case ExportDefaultExpr => K.ExportDefaultExpr
    case ExportAll => K.ExportAll
    case TsImportEquals => K.TsImportEquals
    case TsExportAssignment => K.TsExportAssignment
    case TsNamespaceExport => K.TsNamespaceExport
  }

  function ShapeStmt(s: Stmt): Tree
    requires FullStmt(s)
  {
    match s
    case Block(b) => ShapeBlock(b)
    case Empty => Node(K.Empty, [])
    case Debugger => Node(K.Debugger, [])
    case Return(_) => Node(K.Return, [])
    case Break(_) => Node(K.Break, [])
    case Continue(_) => Node(K.Continue, [])
    case If(test, cons, alt) =>
      Node(K.If, [ShapeExpr(test), ShapeStmt(cons)] + (if alt.Some? then [ShapeStmt(alt.value)] else []))
    case Switch(cases) => Node(K.Switch, ShapeCases(cases))
    case Try(block, _, _) => Node(K.Try, [ShapeBlock(block)])
    case While(test, body) => Node(K.While, [ShapeExpr(test), ShapeStmt(body)])
    case DoWhile(body, test) => Node(K.DoWhile, [ShapeExpr(test), ShapeStmt(body)])
    case For(init, test, update, body) =>
      Node(K.For, [ShapeForInit(init), ShapeOptExpr(test), ShapeOptExpr(update), ShapeStmt(body)])
    case DeclStmt(d) => ShapeDecl(d)
    case ExprStmt(x) => Node(K.Expr, [ShapeExpr(x)])
  }

  function ShapeBlock(b: BlockStmt): Tree
    requires FullBlock(b)
  {
    Node(K.Block, ShapeStmts(b.stmts))
  }

  function ShapeStmts(ss: seq<Stmt>): (ts: seq<Tree>)
    requires FullStmts(ss)
    ensures |ts| == |ss|
  {
    if ss == [] then []
    else ShapeStmts(ss[..|ss| - 1]) + [ShapeStmt(ss[|ss| - 1])]
  }

  /** Clauses that declare nothing: one `SwitchCase` leaf each. */
  function ShapeCases(cases: seq<SwitchCase>): (ts: seq<Tree>)
    ensures |ts| == |cases|
  {
    if cases == [] then []
    else ShapeCases(cases[..|cases| - 1]) + [Node(K.SwitchCase, [])]
  }

  /** An absent `for` slot is an `EmptyExpr` leaf. */
  function ShapeOptExpr(x: Option<Expr>): Tree
    requires FullOptExpr(x)
  {
    match x
    case None => Node(K.EmptyExpr, [])
    case Some(e) => ShapeExpr(e)
  }

  function ShapeForInit(init: Option<ForInit>): Tree
    requires FullForInit(init)
  {
    match init
    case None => Node(K.EmptyExpr, [])
    case Some(InitVarDecl(v)) => ShapeVarDecl(v)
    case Some(InitExpr(x)) => ShapeExpr(x)
  }

  function ShapeDecl(d: Decl): Tree
    requires FullDecl(d)
  {
    match d
    case Class => Node(K.Class, [])
    case Fn(_) => Node(K.Fn, [])
    case Var(v) => ShapeVarDecl(v)
    case Using(_) => Node(K.Using, [])
    case TsTypeAlias => Node(K.TsTypeAlias, [])
    case TsModule => Node(K.TsModule, [])
  }

  function ShapeVarDecl(v: VarDecl): Tree
    requires FullVarDecl(v)
  {
    Node(K.Var, ShapeDeclarators(v.decls))
  }

  function ShapeDeclarators(ds: seq<VarDeclarator>): (ts: seq<Tree>)
    requires forall i | 0 <= i < |ds| :: FullDeclarator(ds[i])
    ensures |ts| == |ds|
  {
    if ds == [] then []
    else ShapeDeclarators(ds[..|ds| - 1]) + [ShapeDeclarator(ds[|ds| - 1])]
  }

  /** A declarator: the name (an identifier, or an expression pattern), then
      the initializer if any. */
  function ShapeDeclarator(d: VarDeclarator): Tree
    requires FullDeclarator(d)
  {
    var name := if d.name.PatIdent? then Node(K.Ident, []) else ShapeExpr(d.name.expr);
    Node(K.VarDeclarator, [name] + (if d.init.Some? then [ShapeExpr(d.init.value)] else []))
  }

  function ShapeExpr(e: Expr): Tree
    requires FullExpr(e)
    decreases e, 1
  {
    match e
    case This => Node(K.This, [])
    case Array(_) => Node(K.Array, [])
    case Object(_) => ShapeObject(e)
    case FnExpr => Node(K.FnExpr, [])
    case Update(_) => ShapeUpdate(e)
    case Bin(_, _) => ShapeBin(e)
    case Assign(_, _) => ShapeAssign(e)
    case Member(m) => ShapeMember(m)
    case Cond(_, _, _) => ShapeCond(e)
    case Call(_, _) => ShapeCall(e)
    case New(_, _, _) => ShapeNew(e)
    case Seq(_) => ShapeSeq(e)
    case Ident => Node(K.Ident, [])
    case Lit(l) => Node(LitKind(l), [])
    case Tpl => Node(K.Tpl, [])
    case TaggedTpl => Node(K.TaggedTpl, [])
    case Arrow(_, _, _, _) => ShapeArrow(e)
    case Yield(_) => ShapeYield(e)
    case MetaProp => Node(K.MetaProp, [])
    case Await(_) => ShapeAwait(e)
    case Paren(_) => ShapeParen(e)
    case JSXMember => Node(K.JSXMember, [])
    case JSXNamespacedName => Node(K.JSXNamespacedName, [])
    case JSXEmpty => Node(K.JSXEmpty, [])
    case JSXElement => Node(K.JSXElement, [])
    case JSXFragment => Node(K.JSXFragment, [])
    case TsTypeAssertion => Node(K.TsTypeAssertion, [])
    case TsConstAssertion(_) => ShapeTsConstAssertion(e)
    case TsNonNull(_) => ShapeTsNonNull(e)
    case PrivateName => Node(K.PrivateName, [])
    case OptChain => Node(K.OptChain, [])
  }

  /** An object literal over its members. */
  function ShapeObject(e: Expr): Tree
    requires e.Object? && FullExpr(e)
    decreases e, 0
  {
    var props := e.props;
    Node(K.Object, ShapeProps(props))
  }

  /** An assignment over its target (an identifier, or a computed member)
      and its value. */
  function ShapeAssign(e: Expr): Tree
    requires e.Assign? && FullExpr(e)
    decreases e, 0
  {
    var target, value := e.target, e.value;
    var t := if target.TargetIdent? then Node(K.Ident, []) else ShapeMember(target.member);
    Node(K.Assign, [t, ShapeExpr(value)])
  }

  /** `++`/`--` over its operand. */
  function ShapeUpdate(e: Expr): Tree
    requires e.Update? && FullExpr(e)
    decreases e, 0
  {
    var arg := e.arg;
    Node(K.Update, [ShapeExpr(arg)])
  }

  /** A binary expression over its two operands. */
  function ShapeBin(e: Expr): Tree
    requires e.Bin? && FullExpr(e)
    decreases e, 0
  {
    var left, right := e.left, e.right;
    Node(K.Bin, [ShapeExpr(left), ShapeExpr(right)])
  }

  /** A conditional expression over its test and branches. */
  function ShapeCond(e: Expr): Tree
    requires e.Cond? && FullExpr(e)
    decreases e, 0
  {
    var test, cons, alt := e.test, e.cons, e.alt;
    Node(K.Cond, [ShapeExpr(test), ShapeExpr(cons), ShapeExpr(alt)])
  }

  /** A call over its callee and its arguments. */
  function ShapeCall(e: Expr): Tree
    requires e.Call? && FullExpr(e)
    decreases e, 0
  {
    var callee, args := e.callee, e.args;
    Node(K.Call, [ShapeExpr(callee.calleeExpr)] + ShapeArgs(args))
  }

  /** A `new` expression without type arguments over its callee and its
      arguments, if any. */
  function ShapeNew(e: Expr): Tree
    requires e.New? && FullExpr(e)
    decreases e, 0
  {
    var callee, args := e.newCallee, e.newArgs;
    Node(K.New, [ShapeExpr(callee)] + ShapeNewArgs(args))
  }

  /** A comma sequence over its expressions. */
  function ShapeSeq(e: Expr): Tree
    requires e.Seq? && FullExpr(e)
    decreases e, 0
  {
    var exprs := e.exprs;
    Node(K.Seq, ShapeExprs(exprs))
  }

  /** An arrow function without parameters over its body. */
  function ShapeArrow(e: Expr): Tree
    requires e.Arrow? && FullExpr(e)
    decreases e, 0
  {
    var body := e.body;
    Node(K.Arrow, [ShapeArrowBody(body)])
  }

  /** A `yield` over its argument, if any. */
  function ShapeYield(e: Expr): Tree
    requires e.Yield? && FullExpr(e)
    decreases e, 0
  {
    var arg := e.yieldArg;
    Node(K.Yield, if arg.Some? then [ShapeExpr(arg.value)] else [])
  }

  /** An `await` over its operand. */
  function ShapeAwait(e: Expr): Tree
    requires e.Await? && FullExpr(e)
    decreases e, 0
  {
    var arg := e.awaitArg;
    Node(K.Await, [ShapeExpr(arg)])
  }

  /** A parenthesized expression: a one-element `Seq`. */
  function ShapeParen(e: Expr): Tree
    requires e.Paren? && FullExpr(e)
    decreases e, 0
  {
    var inner := e.inner;
    Node(K.Seq, [ShapeExpr(inner)])
  }

  /** An `as const` assertion over its expression. */
  function ShapeTsConstAssertion(e: Expr): Tree
    requires e.TsConstAssertion? && FullExpr(e)
    decreases e, 0
  {
    var x := e.asserted;
    Node(K.TsConstAssertion, [ShapeExpr(x)])
  }

  /** A non-null assertion over its expression. */
  function ShapeTsNonNull(e: Expr): Tree
    requires e.TsNonNull? && FullExpr(e)
    decreases e, 0
  {
    var x := e.nonNull;
    Node(K.TsNonNull, [ShapeExpr(x)])
  }

  /** The node kind of each literal form. */
  function LitKind(l: Lit): K.AstNode
  {
    match l
    case Str => K.StringLiteral
    case Bool => K.Bool
    case Null => K.Null
    case Num => K.Num
    case BigInt => K.BigInt
    case Regex => K.Regex
    case JSXText => K.JSXText
  }

  function ShapeMember(m: MemberExpr): Tree
    requires FullMember(m)
  {
    Node(K.Member, [ShapeExpr(m.obj), ShapeExpr(m.prop.propExpr)])
  }

  function ShapeArrowBody(body: ArrowBody): Tree
    requires FullArrowBody(body)
  {
    match body
    case BodyBlock(b) => ShapeBlock(b)
    case BodyExpr(x) => ShapeExpr(x)
  }

  function ShapeExprs(xs: seq<Expr>): (ts: seq<Tree>)
    requires forall i | 0 <= i < |xs| :: FullExpr(xs[i])
    ensures |ts| == |xs|
  {
    if xs == [] then []
    else ShapeExprs(xs[..|xs| - 1]) + [ShapeExpr(xs[|xs| - 1])]
  }

  function ShapeNewArgs(args: NewArgs): (ts: seq<Tree>)
    requires args.ArgList? ==> forall i | 0 <= i < |args.args| :: FullExpr(args.args[i].expr)
    ensures |ts| == if args.ArgList? then |args.args| else 0
  {
    match args
    case ArgList(xs) => ShapeArgs(xs)
    case NoArgs => []
  }

  function ShapeArgs(args: seq<ExprOrSpread>): (ts: seq<Tree>)
    requires forall i | 0 <= i < |args| :: FullExpr(args[i].expr)
    ensures |ts| == |args|
  {
    if args == [] then []
    else ShapeArgs(args[..|args| - 1]) + [ShapeArg(args[|args| - 1])]
  }

  /** A spread argument is a `Spread` node over the argument. */
  function ShapeArg(a: ExprOrSpread): Tree
    requires FullExpr(a.expr)
  {
    if a.spread then Node(K.Spread, [ShapeExpr(a.expr)]) else ShapeExpr(a.expr)
  }

  function ShapeProps(props: seq<PropOrSpread>): (ts: seq<Tree>)
    requires forall i | 0 <= i < |props| :: FullProp(props[i])
    ensures |ts| == |props|
  {
    if props == [] then []
    else ShapeProps(props[..|props| - 1]) + [ShapeProp(props[|props| - 1])]
  }

  function ShapeProp(p: PropOrSpread): Tree
    requires FullProp(p)
  {
    match p
    case SpreadProp(x) => Node(K.Spread, [ShapeExpr(x)])
    case Shorthand => Node(K.Ident, [])
    case KeyValue(v) => ShapeExpr(v)
    case AssignProp(v) => Node(K.Assign, [Node(K.Ident, []), ShapeExpr(v)])
    case Getter(body) => ShapeBlock(body.value)
    case Setter(body) => ShapeBlock(body.value)
    case Method(body) => ShapeBlock(body.value)
  }
}
