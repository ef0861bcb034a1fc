/** The encoder writes a fully encoded program as its tree in pre-order,
    every record declaring exactly the subtrees that follow it, so a decoder
    that trusts the counts reads the whole buffer back. */
module WellFormed {
  import opened Wrappers
  import opened Syntax
  import opened Wire
  import opened Emit
  import opened Decode
  import opened Shape
  import K = Tags

  /** The main result: a fully encoded program is written without a panic,
      and decoding its buffer by the record counts rebuilds the program's
      tree and uses up every record. */
  lemma EncodeDecodes(p: Program)
    requires FullProgram(p)
    ensures Encode(p) == Some(Bytes(Flatten(ShapeProgram(p))))
    ensures DecodeBuffer(Encode(p).value) == Some(Erase(ShapeProgram(p)))
  {
    ProgramShape(p);
    DecodeBytes(ShapeProgram(p));
  }

  lemma ProgramShape(p: Program)
    requires FullProgram(p)
    ensures EmitProgram(p) == Some(Flatten(ShapeProgram(p)))
    ensures Small(ShapeProgram(p))
  {
    match p
    case Module(body) => ItemsShape(body);
    case Script(stmts) => StmtsShape(stmts);
  }

  lemma {:induction false} ItemsShape(items: seq<ModuleItem>)
    requires forall i | 0 <= i < |items| :: FullItem(items[i])
    ensures EmitItems(items) == Some(FlattenAll(ShapeItems(items)))
    ensures AllSmall(ShapeItems(items))
    decreases |items|
  {
    if items != [] {
      var n := |items| - 1;
      ItemsShape(items[..n]);
      ItemShape(items[n]);
      FlattenAllAppend(ShapeItems(items[..n]), [ShapeItem(items[n])]);
      FlattenAllOne(ShapeItem(items[n]));
    }
  }

  lemma ItemShape(item: ModuleItem)
    requires FullItem(item)
    ensures EmitItem(item) == Some(Flatten(ShapeItem(item)))
    ensures Small(ShapeItem(item))
  {
    match item
    case ModuleDeclItem(d) => ModuleDeclShape(d);
    case StmtItem(s) => StmtShape(s);
  }

  /** Every import/export form is one leaf record. */
  lemma ModuleDeclShape(d: ModuleDecl)
    ensures EmitModuleDecl(d) == [Header(ModuleDeclKind(d), 0)]
  {
    match d
    case Import =>
    case ExportDecl =>
    case ExportNamed =>
    case ExportDefaultDecl =>
    case ExportDefaultExpr =>
    case ExportAll =>
    case TsImportEquals =>
    case TsExportAssignment =>
    case TsNamespaceExport =>
  }

  lemma {:induction false} StmtShape(s: Stmt)
    requires FullStmt(s)
    ensures EmitStmt(s) == Some(Flatten(ShapeStmt(s)))
    ensures Small(ShapeStmt(s))
    decreases s, 1
  {
    match s
    case Block(b) => BlockShape(b);
    case Empty =>
    case Debugger =>
    case Return(_) =>
    case Break(_) =>
    case Continue(_) =>
    case If(_, _, _) => IfShape(s);
    case Switch(_) => SwitchShape(s);
    case Try(_, _, _) => TryShape(s);
    case While(_, _) => WhileShape(s);
    case DoWhile(_, _) => DoWhileShape(s);
    case For(_, _, _, _) => ForShape(s);
    case DeclStmt(d) => DeclShape(d);
    case ExprStmt(_) => ExprStmtShape(s);
  }

  lemma {:induction false} BlockShape(b: BlockStmt)
    requires FullBlock(b)
    ensures EmitBlock(b) == Some(Flatten(ShapeBlock(b)))
    ensures Small(ShapeBlock(b))
    decreases b, 0
  {
    StmtsShape(b.stmts);
  }

  lemma {:induction false} StmtsShape(ss: seq<Stmt>)
    requires FullStmts(ss)
    ensures EmitStmts(ss) == Some(FlattenAll(ShapeStmts(ss)))
    ensures AllSmall(ShapeStmts(ss))
    decreases ss, 0
  {
    if ss != [] {
      var n := |ss| - 1;
      StmtsShape(ss[..n]);
      StmtShape(ss[n]);
      FlattenAllAppend(ShapeStmts(ss[..n]), [ShapeStmt(ss[n])]);
      FlattenAllOne(ShapeStmt(ss[n]));
    }
  }

  /** An `if` is its test, its consequent and, when present, its
      alternative: 3 subtrees or 2, as its record declares. */
  lemma {:induction false} IfShape(s: Stmt)
    requires s.If? && FullStmt(s)
    ensures EmitIf(s) == Some(Flatten(ShapeStmt(s)))
    ensures Small(ShapeStmt(s))
    decreases s, 0
  {
    var t, c := ShapeExpr(s.test), ShapeStmt(s.cons);
    ExprShape(s.test);
    StmtShape(s.cons);
    if s.alt.Some? {
      var a := ShapeStmt(s.alt.value);
      StmtShape(s.alt.value);
      assert ShapeStmt(s) == Node(K.If, [t, c, a]);
      FlattenNode3(K.If, t, c, a);
    } else {
      assert ShapeStmt(s) == Node(K.If, [t, c]);
      FlattenNode2(K.If, t, c);
      var written := [Header(K.If, 2)] + Flatten(t) + Flatten(c);
      assert written + [] == written;
    }
  }

  /** A `switch` whose clauses declare nothing is its clause leaves, one
      per clause, as its record declares. */
  lemma SwitchShape(s: Stmt)
    requires s.Switch? && FullStmt(s)
    ensures EmitStmt(s) == Some(Flatten(ShapeStmt(s)))
    ensures Small(ShapeStmt(s))
  {
    CasesShape(s.cases);
  }

  lemma {:induction false} CasesShape(cases: seq<SwitchCase>)
    requires forall i | 0 <= i < |cases| :: CaseCount(cases[i]) == 0
    ensures EmitCases(cases) == FlattenAll(ShapeCases(cases))
    ensures AllSmall(ShapeCases(cases))
  {
    if cases != [] {
      var n := |cases| - 1;
      var leaf := Node(K.SwitchCase, []);
      CasesShape(cases[..n]);
      FlattenAllAppend(ShapeCases(cases[..n]), [leaf]);
      FlattenAllOne(leaf);
    }
  }

  /** A `try` without handler or finalizer declares and writes one subtree,
      its block. */
  lemma TryShape(s: Stmt)
    requires s.Try? && FullStmt(s)
    ensures EmitStmt(s) == Some(Flatten(ShapeStmt(s)))
    ensures Small(ShapeStmt(s))
    decreases s, 0
  {
    BlockShape(s.block);
    FlattenNode1(K.Try, ShapeBlock(s.block));
  }

  lemma {:induction false} WhileShape(s: Stmt)
    requires s.While? && FullStmt(s)
    ensures EmitWhile(s) == Some(Flatten(ShapeStmt(s)))
    ensures Small(ShapeStmt(s))
    decreases s, 0
  {
    ExprShape(s.test);
    StmtShape(s.body);
    FlattenNode2(K.While, ShapeExpr(s.test), ShapeStmt(s.body));
  }

  /** A `do`-`while` is written test first, then body, unlike its source
      order. */
  lemma {:induction false} DoWhileShape(s: Stmt)
    requires s.DoWhile? && FullStmt(s)
    ensures EmitDoWhile(s) == Some(Flatten(ShapeStmt(s)))
    ensures Small(ShapeStmt(s))
    decreases s, 0
  {
    ExprShape(s.test);
    StmtShape(s.body);
    FlattenNode2(K.DoWhile, ShapeExpr(s.test), ShapeStmt(s.body));
  }

  /** A `for` is always four subtrees: the initializer, the test, the update
      (each an `EmptyExpr` leaf when absent) and the body. */
  lemma {:induction false} ForShape(s: Stmt)
    requires s.For? && FullStmt(s)
    ensures EmitFor(s) == Some(Flatten(ShapeStmt(s)))
    ensures Small(ShapeStmt(s))
    decreases s, 0
  {
    ForInitShape(s.forInit);
    OptExprShape(s.forTest);
    OptExprShape(s.forUpdate);
    StmtShape(s.body);
    FlattenNode4(K.For, ShapeForInit(s.forInit), ShapeOptExpr(s.forTest), ShapeOptExpr(s.forUpdate), ShapeStmt(s.body));
  }

  lemma {:induction false} ForInitShape(init: Option<ForInit>)
    requires FullForInit(init)
    ensures EmitForInit(init) == Some(Flatten(ShapeForInit(init)))
    ensures Small(ShapeForInit(init))
    decreases init, 0
  {
    match init
    case None =>
    case Some(InitVarDecl(v)) => VarDeclShape(v);
    case Some(InitExpr(x)) => ExprShape(x);
  }

  lemma {:induction false} OptExprShape(x: Option<Expr>)
    requires FullOptExpr(x)
    ensures EmitOptExpr(x) == Some(Flatten(ShapeOptExpr(x)))
    ensures Small(ShapeOptExpr(x))
    decreases x, 0
  {
    if x.Some? {
      ExprShape(x.value);
    }
  }

  lemma {:induction false} ExprStmtShape(s: Stmt)
    requires s.ExprStmt? && FullStmt(s)
    ensures EmitExprStmt(s) == Some(Flatten(ShapeStmt(s)))
    ensures Small(ShapeStmt(s))
    decreases s, 0
  {
    ExprShape(s.expr);
    FlattenNode1(K.Expr, ShapeExpr(s.expr));
  }

  lemma {:induction false} DeclShape(d: Decl)
    requires FullDecl(d)
    ensures EmitDecl(d) == Some(Flatten(ShapeDecl(d)))
    ensures Small(ShapeDecl(d))
    decreases d, 0
  {
    match d
    case Class =>
    case Fn(_) =>
      assert EmitDecl(d).value == [Header(K.Fn, 0)] + [];
    case Var(v) => VarDeclShape(v);
    case Using(_) =>
    case TsTypeAlias =>
    case TsModule =>
  }

  lemma {:induction false} VarDeclShape(v: VarDecl)
    requires FullVarDecl(v)
    ensures EmitVarDecl(v) == Some(Flatten(ShapeVarDecl(v)))
    ensures Small(ShapeVarDecl(v))
    decreases v, 0
  {
    DeclaratorsShape(v.decls);
  }

  lemma {:induction false} DeclaratorsShape(ds: seq<VarDeclarator>)
    requires forall i | 0 <= i < |ds| :: FullDeclarator(ds[i])
    ensures EmitDeclarators(ds) == Some(FlattenAll(ShapeDeclarators(ds)))
    ensures AllSmall(ShapeDeclarators(ds))
    decreases ds, 0
  {
    if ds != [] {
      var n := |ds| - 1;
      DeclaratorsShape(ds[..n]);
      DeclaratorShape(ds[n]);
      FlattenAllAppend(ShapeDeclarators(ds[..n]), [ShapeDeclarator(ds[n])]);
      FlattenAllOne(ShapeDeclarator(ds[n]));
    }
  }

  /** A declarator is its name (an identifier leaf or an expression
      pattern's subtree) and, when present, its initializer: 2 subtrees or
      1, as its record declares. */
  lemma {:induction false} DeclaratorShape(d: VarDeclarator)
    requires FullDeclarator(d)
    ensures EmitDeclarator(d) == Some(Flatten(ShapeDeclarator(d)))
    ensures Small(ShapeDeclarator(d))
    decreases d, 0
  {
    var name := if d.name.PatIdent? then Node(K.Ident, []) else ShapeExpr(d.name.expr);
    if d.name.PatExpr? {
      ExprShape(d.name.expr);
    }
    if d.init.Some? {
      var x := ShapeExpr(d.init.value);
      ExprShape(d.init.value);
      assert ShapeDeclarator(d) == Node(K.VarDeclarator, [name, x]);
      FlattenNode2(K.VarDeclarator, name, x);
    } else {
      assert ShapeDeclarator(d) == Node(K.VarDeclarator, [name]);
      FlattenNode1(K.VarDeclarator, name);
      var written := [Header(K.VarDeclarator, 1)] + Flatten(name);
      assert written + [] == written;
    }
  }

  lemma {:induction false} ExprShape(e: Expr)
    requires FullExpr(e)
    ensures EmitExpr(e) == Some(Flatten(ShapeExpr(e)))
    ensures Small(ShapeExpr(e))
    decreases e, 1
  {
    if !HasVisitedChildren(e) {
      LeafExprShape(e);
    } else {
      match e
      case Object(_) => ObjectShape(e);
      case Update(_) => UpdateShape(e);
      case Bin(_, _) => BinShape(e);
      case Assign(_, _) => AssignShape(e);
      case Member(m) => MemberShape(m);
      case Cond(_, _, _) => CondShape(e);
      case Call(_, _) => CallShape(e);
      case New(_, _, _) => NewShape(e);
      case Seq(_) => SeqShape(e);
      case Arrow(_, _, _, _) => ArrowShape(e);
      case Yield(_) => YieldShape(e);
      case Await(_) => AwaitShape(e);
      case Paren(_) => ParenShape(e);
      case TsConstAssertion(_) => TsConstAssertionShape(e);
      case TsNonNull(_) => TsNonNullShape(e);
    }
  }

  /** An expression whose children are not visited is one leaf record. */
  lemma LeafExprShape(e: Expr)
    requires FullExpr(e) && !HasVisitedChildren(e)
    ensures EmitExpr(e) == Some(Flatten(ShapeExpr(e)))
    ensures Small(ShapeExpr(e))
  {
    if e.Lit? {
      LitShape(e.lit);
    }
  }

  /** Every literal form is one leaf record. */
  lemma LitShape(l: Lit)
    ensures EmitLit(l) == [Header(LitKind(l), 0)]
  {
    match l
    case Str =>
    case Bool =>
    case Null =>
    case Num =>
    case BigInt =>
    case Regex =>
    case JSXText =>
  }

  lemma {:induction false} ObjectShape(e: Expr)
    requires e.Object? && FullExpr(e)
    ensures EmitExpr(e) == Some(Flatten(ShapeExpr(e)))
    ensures Small(ShapeExpr(e))
    decreases e, 0
  {
    PropsShape(e.props);
  }

  lemma {:induction false} UpdateShape(e: Expr)
    requires e.Update? && FullExpr(e)
    ensures EmitExpr(e) == Some(Flatten(ShapeExpr(e)))
    ensures Small(ShapeExpr(e))
    decreases e, 0
  {
    ExprShape(e.arg);
    FlattenNode1(K.Update, ShapeExpr(e.arg));
  }

  lemma {:induction false} BinShape(e: Expr)
    requires e.Bin? && FullExpr(e)
    ensures EmitExpr(e) == Some(Flatten(ShapeExpr(e)))
    ensures Small(ShapeExpr(e))
    decreases e, 0
  {
    ExprShape(e.left);
    ExprShape(e.right);
    FlattenNode2(K.Bin, ShapeExpr(e.left), ShapeExpr(e.right));
  }

  /** An assignment is its target (an identifier leaf or a member subtree)
      and its value. */
  lemma {:induction false} AssignShape(e: Expr)
    requires e.Assign? && FullExpr(e)
    ensures EmitExpr(e) == Some(Flatten(ShapeExpr(e)))
    ensures Small(ShapeExpr(e))
    decreases e, 0
  {
    ExprShape(e.value);
    var t := if e.target.TargetIdent? then Node(K.Ident, []) else ShapeMember(e.target.member);
    if e.target.TargetMember? {
      MemberShape(e.target.member);
    }
    FlattenNode2(K.Assign, t, ShapeExpr(e.value));
  }

  /** A computed member expression is its object and its property: 2
      subtrees, as its record declares. */
  lemma {:induction false} MemberShape(m: MemberExpr)
    requires FullMember(m)
    ensures EmitMember(m) == Some(Flatten(ShapeMember(m)))
    ensures Small(ShapeMember(m))
    decreases m, 0
  {
    ExprShape(m.obj);
    ExprShape(m.prop.propExpr);
    FlattenNode2(K.Member, ShapeExpr(m.obj), ShapeExpr(m.prop.propExpr));
  }

  lemma {:induction false} CondShape(e: Expr)
    requires e.Cond? && FullExpr(e)
    ensures EmitExpr(e) == Some(Flatten(ShapeExpr(e)))
    ensures Small(ShapeExpr(e))
    decreases e, 0
  {
    ExprShape(e.test);
    ExprShape(e.cons);
    ExprShape(e.alt);
    FlattenNode3(K.Cond, ShapeExpr(e.test), ShapeExpr(e.cons), ShapeExpr(e.alt));
  }

  /** A call with an expression callee is the callee then one subtree per
      argument, `1 + |args|` as its record declares, because a spread
      marker holds its argument as its only child. */
  lemma {:induction false} CallShape(e: Expr)
    requires e.Call? && FullExpr(e)
    ensures EmitExpr(e) == Some(Flatten(ShapeExpr(e)))
    ensures Small(ShapeExpr(e))
    decreases e, 0
  {
    ExprShape(e.callee.calleeExpr);
    ArgsShape(e.args);
    FlattenCons(K.Call, ShapeExpr(e.callee.calleeExpr), ShapeArgs(e.args));
  }

  /** A `new` without type arguments is the callee then one subtree per
      argument, the number its record declares. */
  lemma {:induction false} NewShape(e: Expr)
    requires e.New? && FullExpr(e)
    ensures EmitExpr(e) == Some(Flatten(ShapeExpr(e)))
    ensures Small(ShapeExpr(e))
    decreases e, 0
  {
    ExprShape(e.newCallee);
    NewArgsShape(e.newArgs);
    FlattenCons(K.New, ShapeExpr(e.newCallee), ShapeNewArgs(e.newArgs));
  }

  lemma {:induction false} NewArgsShape(args: NewArgs)
    requires args.ArgList? ==> forall i | 0 <= i < |args.args| :: FullExpr(args.args[i].expr)
    ensures EmitNewArgs(args) == Some(FlattenAll(ShapeNewArgs(args)))
    ensures AllSmall(ShapeNewArgs(args))
    decreases args, 0
  {
    if args.ArgList? {
      ArgsShape(args.args);
    }
  }

  lemma {:induction false} SeqShape(e: Expr)
    requires e.Seq? && FullExpr(e)
    ensures EmitExpr(e) == Some(Flatten(ShapeExpr(e)))
    ensures Small(ShapeExpr(e))
    decreases e, 0
  {
    ExprsShape(e.exprs);
  }

  lemma {:induction false} ArrowShape(e: Expr)
    requires e.Arrow? && FullExpr(e)
    ensures EmitExpr(e) == Some(Flatten(ShapeExpr(e)))
    ensures Small(ShapeExpr(e))
    decreases e, 0
  {
    ArrowBodyShape(e.body);
    FlattenNode1(K.Arrow, ShapeArrowBody(e.body));
  }

  lemma {:induction false} ArrowBodyShape(body: ArrowBody)
    requires FullArrowBody(body)
    ensures EmitArrowBody(body) == Some(Flatten(ShapeArrowBody(body)))
    ensures Small(ShapeArrowBody(body))
    decreases body, 0
  {
    match body
    case BodyBlock(b) => BlockShape(b);
    case BodyExpr(x) => ExprShape(x);
  }

  lemma {:induction false} YieldShape(e: Expr)
    requires e.Yield? && FullExpr(e)
    ensures EmitExpr(e) == Some(Flatten(ShapeExpr(e)))
    ensures Small(ShapeExpr(e))
    decreases e, 0
  {
    if e.yieldArg.Some? {
      ExprShape(e.yieldArg.value);
      FlattenNode1(K.Yield, ShapeExpr(e.yieldArg.value));
    }
  }

  lemma {:induction false} AwaitShape(e: Expr)
    requires e.Await? && FullExpr(e)
    ensures EmitExpr(e) == Some(Flatten(ShapeExpr(e)))
    ensures Small(ShapeExpr(e))
    decreases e, 0
  {
    ExprShape(e.awaitArg);
    FlattenNode1(K.Await, ShapeExpr(e.awaitArg));
  }

  /** A parenthesized expression is written as a one-element `Seq`. */
  lemma {:induction false} ParenShape(e: Expr)
    requires e.Paren? && FullExpr(e)
    ensures EmitExpr(e) == Some(Flatten(ShapeExpr(e)))
    ensures Small(ShapeExpr(e))
    decreases e, 0
  {
    ExprShape(e.inner);
    FlattenNode1(K.Seq, ShapeExpr(e.inner));
  }

  lemma {:induction false} TsConstAssertionShape(e: Expr)
    requires e.TsConstAssertion? && FullExpr(e)
    ensures EmitExpr(e) == Some(Flatten(ShapeExpr(e)))
    ensures Small(ShapeExpr(e))
    decreases e, 0
  {
    ExprShape(e.asserted);
    FlattenNode1(K.TsConstAssertion, ShapeExpr(e.asserted));
  }

  lemma {:induction false} TsNonNullShape(e: Expr)
    requires e.TsNonNull? && FullExpr(e)
    ensures EmitExpr(e) == Some(Flatten(ShapeExpr(e)))
    ensures Small(ShapeExpr(e))
    decreases e, 0
  {
    ExprShape(e.nonNull);
    FlattenNode1(K.TsNonNull, ShapeExpr(e.nonNull));
  }

  lemma {:induction false} ExprsShape(xs: seq<Expr>)
    requires forall i | 0 <= i < |xs| :: FullExpr(xs[i])
    ensures EmitExprs(xs) == Some(FlattenAll(ShapeExprs(xs)))
    ensures AllSmall(ShapeExprs(xs))
    decreases xs, 0
  {
    if xs != [] {
      var n := |xs| - 1;
      ExprsShape(xs[..n]);
      ExprShape(xs[n]);
      FlattenAllAppend(ShapeExprs(xs[..n]), [ShapeExpr(xs[n])]);
      FlattenAllOne(ShapeExpr(xs[n]));
    }
  }

  lemma {:induction false} ArgsShape(args: seq<ExprOrSpread>)
    requires forall i | 0 <= i < |args| :: FullExpr(args[i].expr)
    ensures EmitArgs(args) == Some(FlattenAll(ShapeArgs(args)))
    ensures AllSmall(ShapeArgs(args))
    decreases args, 0
  {
    if args != [] {
      var n := |args| - 1;
      ArgsShape(args[..n]);
      ArgShape(args[n]);
      FlattenAllAppend(ShapeArgs(args[..n]), [ShapeArg(args[n])]);
      FlattenAllOne(ShapeArg(args[n]));
    }
  }

  /** A spread argument is a `Spread` record over its argument's subtree. */
  lemma {:induction false} ArgShape(a: ExprOrSpread)
    requires FullExpr(a.expr)
    ensures EmitArg(a) == Some(Flatten(ShapeArg(a)))
    ensures Small(ShapeArg(a))
    decreases a, 0
  {
    ExprShape(a.expr);
    if a.spread {
      FlattenNode1(K.Spread, ShapeExpr(a.expr));
    } else {
      var written := Flatten(ShapeExpr(a.expr));
      assert [] + written == written;
    }
  }

  lemma {:induction false} PropsShape(props: seq<PropOrSpread>)
    requires forall i | 0 <= i < |props| :: FullProp(props[i])
    ensures EmitProps(props) == Some(FlattenAll(ShapeProps(props)))
    ensures AllSmall(ShapeProps(props))
    decreases props, 0
  {
    if props != [] {
      var n := |props| - 1;
      PropsShape(props[..n]);
      PropShape(props[n]);
      FlattenAllAppend(ShapeProps(props[..n]), [ShapeProp(props[n])]);
      FlattenAllOne(ShapeProp(props[n]));
    }
  }

  /** A shorthand member is an identifier leaf, and `{ a = v }` an `Assign`
      record over an identifier leaf and the value. */
  lemma {:induction false} PropShape(p: PropOrSpread)
    requires FullProp(p)
    ensures EmitProp(p) == Some(Flatten(ShapeProp(p)))
    ensures Small(ShapeProp(p))
    decreases p, 0
  {
    match p
    case SpreadProp(x) =>
      ExprShape(x);
      FlattenNode1(K.Spread, ShapeExpr(x));
    case Shorthand =>
    case KeyValue(v) => ExprShape(v);
    case AssignProp(v) =>
      ExprShape(v);
      FlattenNode2(K.Assign, Node(K.Ident, []), ShapeExpr(v));
      assert [Header(K.Assign, 2), Header(K.Ident, 0)] == [Header(K.Assign, 2)] + [Header(K.Ident, 0)];
    case Getter(body) => BlockShape(body.value);
    case Setter(body) => BlockShape(body.value);
    case Method(body) => BlockShape(body.value);
  }
}
