/** Only `serialize_ast_bin` pushes a `Program` record: no `serialize_*`
    routine below it does, so the root record is the only one of its kind. */
module Root {
  import opened Wrappers
  import opened Syntax
  import opened Wire
  import opened Emit
  import K = Tags

  /** No call in the run writes a `Program` record. */
  predicate WithoutProgram(hs: seq<Header>)
  {
    forall h | h in hs :: h.kind != K.Program
  }

  lemma {:induction false} ItemsWithoutProgram(items: seq<ModuleItem>)
    requires EmitItems(items).Some?
    ensures WithoutProgram(EmitItems(items).value)
    decreases |items|
  {
    if items != [] {
      var n := |items| - 1;
      ItemsWithoutProgram(items[..n]);
      match items[n]
      case ModuleDeclItem(d) =>
      case StmtItem(s) => StmtWithoutProgram(s);
    }
  }

  lemma {:induction false} StmtWithoutProgram(s: Stmt)
    requires EmitStmt(s).Some?
    ensures WithoutProgram(EmitStmt(s).value)
    decreases s, 1
  {
    match s
    case Block(b) => BlockWithoutProgram(b);
    case If(test, cons, alt) =>
      ExprWithoutProgram(test);
      StmtWithoutProgram(cons);
      if alt.Some? {
        StmtWithoutProgram(alt.value);
      }
    case Switch(cases) => CasesWithoutProgram(cases);
    case Try(block, _, _) => BlockWithoutProgram(block);
    case While(test, body) =>
      ExprWithoutProgram(test);
      StmtWithoutProgram(body);
    case DoWhile(body, test) =>
      ExprWithoutProgram(test);
      StmtWithoutProgram(body);
    case For(init, test, update, body) =>
      ForInitWithoutProgram(init);
      OptExprWithoutProgram(test);
      OptExprWithoutProgram(update);
      StmtWithoutProgram(body);
    case ForIn(_, right, body) =>
      ExprWithoutProgram(right);
      StmtWithoutProgram(body);
    case ForOf(_, right, body) =>
      ExprWithoutProgram(right);
      StmtWithoutProgram(body);
    case DeclStmt(d) => DeclWithoutProgram(d);
    case ExprStmt(x) => ExprWithoutProgram(x);
    case _ =>
  }

  lemma {:induction false} BlockWithoutProgram(b: BlockStmt)
    requires EmitBlock(b).Some?
    ensures WithoutProgram(EmitBlock(b).value)
    decreases b, 0
  {
    StmtsWithoutProgram(b.stmts);
  }

  lemma {:induction false} StmtsWithoutProgram(ss: seq<Stmt>)
    requires EmitStmts(ss).Some?
    ensures WithoutProgram(EmitStmts(ss).value)
    decreases ss, 0
  {
    if ss != [] {
      var n := |ss| - 1;
      StmtsWithoutProgram(ss[..n]);
      StmtWithoutProgram(ss[n]);
    }
  }

  lemma {:induction false} CasesWithoutProgram(cases: seq<SwitchCase>)
    ensures WithoutProgram(EmitCases(cases))
  {
    if cases != [] {
      CasesWithoutProgram(cases[..|cases| - 1]);
    }
  }

  lemma {:induction false} OptExprWithoutProgram(x: Option<Expr>)
    requires EmitOptExpr(x).Some?
    ensures WithoutProgram(EmitOptExpr(x).value)
    decreases x, 0
  {
    if x.Some? {
      ExprWithoutProgram(x.value);
    }
  }

  lemma {:induction false} ForInitWithoutProgram(init: Option<ForInit>)
    requires EmitForInit(init).Some?
    ensures WithoutProgram(EmitForInit(init).value)
    decreases init, 0
  {
    match init
    case None =>
    case Some(InitVarDecl(v)) => VarDeclWithoutProgram(v);
    case Some(InitExpr(x)) => ExprWithoutProgram(x);
  }

  lemma {:induction false} DeclWithoutProgram(d: Decl)
    requires EmitDecl(d).Some?
    ensures WithoutProgram(EmitDecl(d).value)
    decreases d, 0
  {
    match d
    case Fn(fnBody) =>
      if fnBody.Some? {
        BlockWithoutProgram(fnBody.value);
      }
    case Var(v) => VarDeclWithoutProgram(v);
    case _ =>
  }

  lemma {:induction false} VarDeclWithoutProgram(v: VarDecl)
    requires EmitVarDecl(v).Some?
    ensures WithoutProgram(EmitVarDecl(v).value)
    decreases v, 0
  {
    DeclaratorsWithoutProgram(v.decls);
  }

  lemma {:induction false} DeclaratorsWithoutProgram(ds: seq<VarDeclarator>)
    requires EmitDeclarators(ds).Some?
    ensures WithoutProgram(EmitDeclarators(ds).value)
    decreases ds, 0
  {
    if ds != [] {
      var n := |ds| - 1;
      DeclaratorsWithoutProgram(ds[..n]);
      DeclaratorWithoutProgram(ds[n]);
    }
  }

  lemma {:induction false} DeclaratorWithoutProgram(d: VarDeclarator)
    requires EmitDeclarator(d).Some?
    ensures WithoutProgram(EmitDeclarator(d).value)
    decreases d, 0
  {
    if d.name.PatExpr? {
      ExprWithoutProgram(d.name.expr);
    }
    if d.init.Some? {
      ExprWithoutProgram(d.init.value);
    }
  }

  lemma {:induction false} ExprWithoutProgram(e: Expr)
    requires EmitExpr(e).Some?
    ensures WithoutProgram(EmitExpr(e).value)
    decreases e, 1
  {
    if e.Object? || e.Seq? || e.Arrow? {
      ListExprWithoutProgram(e);
    } else if e.Call? {
      CallWithoutProgram(e);
    } else if e.New? {
      NewWithoutProgram(e);
    } else if e.Bin? || e.Assign? || e.Member? || e.Cond? {
      PairExprWithoutProgram(e);
    } else if e.Update? || e.Yield? || e.Await? || e.Paren? {
      UnaryExprWithoutProgram(e);
    } else if HasVisitedChildren(e) {
      TsExprWithoutProgram(e);
    }
  }

  /** Objects, comma sequences and arrow functions. */
  lemma {:induction false} ListExprWithoutProgram(e: Expr)
    requires e.Object? || e.Seq? || e.Arrow?
    requires EmitExpr(e).Some?
    ensures WithoutProgram(EmitExpr(e).value)
    decreases e, 0
  {
    match e
    case Object(props) => PropsWithoutProgram(props);
    case Seq(exprs) => ExprsWithoutProgram(exprs);
    case Arrow(_, body, _, _) => ArrowBodyWithoutProgram(body);
  }

  /** A call: the callee, when it is an expression, then the arguments. */
  lemma {:induction false} CallWithoutProgram(e: Expr)
    requires e.Call? && EmitExpr(e).Some?
    ensures WithoutProgram(EmitExpr(e).value)
    decreases e, 0
  {
    if e.callee.ExprCallee? {
      ExprWithoutProgram(e.callee.calleeExpr);
    }
    ArgsWithoutProgram(e.args);
  }

  /** A `new` expression: the callee, then the arguments if any. */
  lemma {:induction false} NewWithoutProgram(e: Expr)
    requires e.New? && EmitExpr(e).Some?
    ensures WithoutProgram(EmitExpr(e).value)
    decreases e, 0
  {
    ExprWithoutProgram(e.newCallee);
    NewArgsWithoutProgram(e.newArgs);
  }

  lemma {:induction false} NewArgsWithoutProgram(args: NewArgs)
    requires EmitNewArgs(args).Some?
    ensures WithoutProgram(EmitNewArgs(args).value)
    decreases args, 0
  {
    if args.ArgList? {
      ArgsWithoutProgram(args.args);
    }
  }

  /** Binary, assignment, member and conditional expressions. */
  lemma {:induction false} PairExprWithoutProgram(e: Expr)
    requires e.Bin? || e.Assign? || e.Member? || e.Cond?
    requires EmitExpr(e).Some?
    ensures WithoutProgram(EmitExpr(e).value)
    decreases e, 0
  {
    match e
    case Bin(left, right) =>
      ExprWithoutProgram(left);
      ExprWithoutProgram(right);
    case Assign(target, value) =>
      if target.TargetMember? {
        MemberWithoutProgram(target.member);
      }
      ExprWithoutProgram(value);
    case Member(m) => MemberWithoutProgram(m);
    case Cond(test, cons, alt) =>
      ExprWithoutProgram(test);
      ExprWithoutProgram(cons);
      ExprWithoutProgram(alt);
  }

  /** `++`/`--`, `yield`, `await` and parentheses. */
  lemma {:induction false} UnaryExprWithoutProgram(e: Expr)
    requires e.Update? || e.Yield? || e.Await? || e.Paren?
    requires EmitExpr(e).Some?
    ensures WithoutProgram(EmitExpr(e).value)
    decreases e, 0
  {
    match e
    case Update(arg) => ExprWithoutProgram(arg);
    case Yield(arg) =>
      if arg.Some? {
        ExprWithoutProgram(arg.value);
      }
    case Await(arg) => ExprWithoutProgram(arg);
    case Paren(inner) => ExprWithoutProgram(inner);
  }

  /** The TypeScript forms; their type annotations write nothing. */
  lemma {:induction false} TsExprWithoutProgram(e: Expr)
    requires e.TsConstAssertion? || e.TsNonNull? || e.TsAs? || e.TsInstantiation? || e.TsSatisfies?
    requires EmitExpr(e).Some?
    ensures WithoutProgram(EmitExpr(e).value)
    decreases e, 0
  {
    match e
    case TsConstAssertion(x) => ExprWithoutProgram(x);
    case TsNonNull(x) => ExprWithoutProgram(x);
    case TsAs(x, _) => ExprWithoutProgram(x);
    case TsInstantiation(x) => ExprWithoutProgram(x);
    case TsSatisfies(x, _) => ExprWithoutProgram(x);
  }

  lemma {:induction false} MemberWithoutProgram(m: MemberExpr)
    requires EmitMember(m).Some?
    ensures WithoutProgram(EmitMember(m).value)
    decreases m, 0
  {
    ExprWithoutProgram(m.obj);
    if m.prop.Computed? {
      ExprWithoutProgram(m.prop.propExpr);
    }
  }

  lemma {:induction false} ArrowBodyWithoutProgram(body: ArrowBody)
    requires EmitArrowBody(body).Some?
    ensures WithoutProgram(EmitArrowBody(body).value)
    decreases body, 0
  {
    match body
    case BodyBlock(b) => BlockWithoutProgram(b);
    case BodyExpr(x) => ExprWithoutProgram(x);
  }

  lemma {:induction false} ExprsWithoutProgram(xs: seq<Expr>)
    requires EmitExprs(xs).Some?
    ensures WithoutProgram(EmitExprs(xs).value)
    decreases xs, 0
  {
    if xs != [] {
      var n := |xs| - 1;
      ExprsWithoutProgram(xs[..n]);
      ExprWithoutProgram(xs[n]);
    }
  }

  lemma {:induction false} ArgsWithoutProgram(args: seq<ExprOrSpread>)
    requires EmitArgs(args).Some?
    ensures WithoutProgram(EmitArgs(args).value)
    decreases args, 0
  {
    if args != [] {
      var n := |args| - 1;
      ArgsWithoutProgram(args[..n]);
      ArgWithoutProgram(args[n]);
    }
  }

  lemma {:induction false} ArgWithoutProgram(a: ExprOrSpread)
    requires EmitArg(a).Some?
    ensures WithoutProgram(EmitArg(a).value)
    decreases a, 0
  {
    ExprWithoutProgram(a.expr);
  }

  lemma {:induction false} PropsWithoutProgram(props: seq<PropOrSpread>)
    requires EmitProps(props).Some?
    ensures WithoutProgram(EmitProps(props).value)
    decreases props, 0
  {
    if props != [] {
      var n := |props| - 1;
      PropsWithoutProgram(props[..n]);
      PropWithoutProgram(props[n]);
    }
  }

  lemma {:induction false} PropWithoutProgram(p: PropOrSpread)
    requires EmitProp(p).Some?
    ensures WithoutProgram(EmitProp(p).value)
    decreases p, 0
  {
    match p
    case SpreadProp(x) => ExprWithoutProgram(x);
    case KeyValue(v) => ExprWithoutProgram(v);
    case AssignProp(v) => ExprWithoutProgram(v);
    case Getter(body) =>
      if body.Some? {
        BlockWithoutProgram(body.value);
      }
    case Setter(body) =>
      if body.Some? {
        BlockWithoutProgram(body.value);
      }
    case Method(body) =>
      if body.Some? {
        BlockWithoutProgram(body.value);
      }
    case Shorthand =>
  }
}
