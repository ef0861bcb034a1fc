/** The encoder as it runs: a growing byte buffer and the recursive walk
    that appends one 14-byte record per `push_node` call.

    Each `Serialize*` method is proved against the `Emit*` function of the
    same construct: it reports success exactly when the function does, and
    on success it has appended exactly the bytes of the function's calls.
    A `false` result stands for the panic on a `with` statement; the buffer
    is then left as it was when the walk stopped. */
module Serializer {
  import opened Wrappers
  import opened Syntax
  import opened Wire
  import opened Emit
  import K = Tags

  /** The output `Vec<u8>`. */
  class ByteVec {
    var bytes: seq<K.u8>

    constructor ()
      ensures bytes == []
    {
      bytes := [];
    }

    method Push(b: K.u8)
      modifies this
      ensures bytes == old(bytes) + [b]
    {
      bytes := bytes + [b];
    }
  }

  /** `push_node`: kind, flags, the count field, then the span. */
  method PushNode(result: ByteVec, kind: K.u8, flags: K.u8, count: nat)
    modifies result
    ensures result.bytes == old(result.bytes) + HeaderBytes(kind, flags, count)
  {
    result.Push(kind);
    result.Push(flags);
    PushCount(result, count);
    PushSpan(result);
  }

  /** The four count bytes: a count below 127 in the first byte, and 0 for
      any larger count. */
  method PushCount(result: ByteVec, count: nat)
    modifies result
    ensures result.bytes == old(result.bytes) + [if count < CountLimit then count as K.u8 else 0, 0, 0, 0]
  {
    if count < CountLimit {
      result.Push(count as K.u8);
      result.Push(0);
      result.Push(0);
      result.Push(0);
    } else {
      result.Push(0);
      result.Push(0);
      result.Push(0);
      result.Push(0);
    }
  }

  /** The eight span bytes, which the encoder leaves at zero. */
  method PushSpan(result: ByteVec)
    modifies result
    ensures result.bytes == old(result.bytes) + [0, 0, 0, 0, 0, 0, 0, 0]
  {
    result.Push(0);
    result.Push(0);
    result.Push(0);
    result.Push(0);
    result.Push(0);
    result.Push(0);
    result.Push(0);
    result.Push(0);
  }

  /** `push_node` for a kind with `Flags::None`, which is every call site. */
  method PushKind(result: ByteVec, kind: K.AstNode, count: nat)
    modifies result
    ensures result.bytes == old(result.bytes) + Bytes([Header(kind, count)])
  {
    PushNode(result, K.Tag(kind), K.FlagsByte(K.NoFlags), count);
    BytesOne(Header(kind, count));
  }

  /** `serialize_ast_bin`: the whole buffer for a program, or `None` where
      the encoder panics. */
  method SerializeAstBin(p: Program) returns (r: Option<seq<K.u8>>)
    ensures r == Encode(p)
  {
    var result := new ByteVec();
    var ok;
    match p {
      case Module(body) =>
        PushKind(result, K.Program, |body|);
        assert result.bytes == Bytes([Header(K.Program, |body|)]);
        ok := SerializeItems(result, body);
        if ok {
          BytesAppend([Header(K.Program, |body|)], EmitItems(body).value);
        }
      case Script(stmts) =>
        PushKind(result, K.Program, |stmts|);
        assert result.bytes == Bytes([Header(K.Program, |stmts|)]);
        ok := SerializeStmts(result, stmts);
        if ok {
          BytesAppend([Header(K.Program, |stmts|)], EmitStmts(stmts).value);
        }
    }
    r := if ok then Some(result.bytes) else None;
  }

  /** The items of a module, in order. */
  method SerializeItems(result: ByteVec, items: seq<ModuleItem>) returns (ok: bool)
    modifies result
    ensures ok == EmitItems(items).Some?
    ensures ok ==> result.bytes == old(result.bytes) + Bytes(EmitItems(items).value)
  {
    ok := true;
    for i := 0 to |items|
      invariant EmitItems(items[..i]).Some?
      invariant result.bytes == old(result.bytes) + Bytes(EmitItems(items[..i]).value)
    {
      assert items[..i + 1][..i] == items[..i];
      ok := SerializeItem(result, items[i]);
      if !ok {
        ItemsPrefix(items, i + 1);
        return;
      }
      BytesExtend(old(result.bytes), EmitItems(items[..i]).value, EmitItem(items[i]).value);
    }
    assert items[..|items|] == items;
  }

  /** One module item: an import/export declaration or a statement. */
  method SerializeItem(result: ByteVec, item: ModuleItem) returns (ok: bool)
    modifies result
    ensures ok == EmitItem(item).Some?
    ensures ok ==> result.bytes == old(result.bytes) + Bytes(EmitItem(item).value)
  {
    match item
    case ModuleDeclItem(d) =>
      SerializeModuleDecl(result, d);
      ok := true;
    case StmtItem(s) =>
      ok := SerializeStmt(result, s);
  }

  /** `serialize_module_decl`. */
  method SerializeModuleDecl(result: ByteVec, d: ModuleDecl)
    modifies result
    ensures result.bytes == old(result.bytes) + Bytes(EmitModuleDecl(d))
  {
    match d
    case Import => PushKind(result, K.Import, 0);
    case ExportDecl => PushKind(result, K.ExportDecl, 0);
    case ExportNamed => PushKind(result, K.ExportNamed, 0);
    case ExportDefaultDecl => PushKind(result, K.ExportDefaultDecl, 0);
    case ExportDefaultExpr => PushKind(result, K.ExportDefaultExpr, 0);
    case ExportAll => PushKind(result, K.ExportAll, 0);
    case TsImportEquals => PushKind(result, K.TsImportEquals, 0);
    case TsExportAssignment => PushKind(result, K.TsExportAssignment, 0);
    case TsNamespaceExport => PushKind(result, K.TsNamespaceExport, 0);
  }

  /** `serialize_stmt`. */
  method SerializeStmt(result: ByteVec, s: Stmt) returns (ok: bool)
    modifies result
    decreases s, 1
    ensures ok == EmitStmt(s).Some?
    ensures ok ==> result.bytes == old(result.bytes) + Bytes(EmitStmt(s).value)
  {
    ok := true;
    match s
    case Block(b) =>
      ok := SerializeBlock(result, b);
    case Empty =>
      PushKind(result, K.Empty, 0);
    case Debugger =>
      PushKind(result, K.Debugger, 0);
    case With =>
      ok := false;
    case Return(arg) =>
      PushKind(result, K.Return, if arg.Some? then 1 else 0);
    case Labeled(_) =>
      PushKind(result, K.Labeled, 1);
    case Break(hasLabel) =>
      PushKind(result, K.Break, if hasLabel then 1 else 0);
    case Continue(hasLabel) =>
      PushKind(result, K.Continue, if hasLabel then 1 else 0);
    case If(_, _, _) =>
      ok := SerializeIf(result, s);
    case Switch(cases) =>
      SerializeSwitch(result, cases);
    case Throw(_) =>
      PushKind(result, K.Throw, 1);
    case Try(_, _, _) =>
      ok := SerializeTry(result, s);
    case While(_, _) =>
      ok := SerializeWhile(result, s);
    case DoWhile(_, _) =>
      ok := SerializeDoWhile(result, s);
    case For(_, _, _, _) =>
      ok := SerializeFor(result, s);
    case ForIn(_, _, _) =>
      ok := SerializeForIn(result, s);
    case ForOf(_, _, _) =>
      ok := SerializeForOf(result, s);
    case DeclStmt(decl) =>
      ok := SerializeDecl(result, decl);
    case ExprStmt(_) =>
      ok := SerializeExprStmt(result, s);
  }

  /** An `if`: 3 children with an `else` branch and 2 without; the test, the
      consequent, then the alternative. */
  method SerializeIf(result: ByteVec, s: Stmt) returns (ok: bool)
    requires s.If?
    modifies result
    decreases s, 0
    ensures ok == EmitStmt(s).Some?
    ensures ok ==> result.bytes == old(result.bytes) + Bytes(EmitStmt(s).value)
  {
    var test, cons, alt := s.test, s.cons, s.alt;
    ok := true;
    var h := Header(K.If, if alt.Some? then 3 else 2);
    PushKind(result, h.kind, h.count);
    ok := SerializeExpr(result, test);
    if !ok { return; }
    ok := SerializeStmt(result, cons);
    if !ok { return; }
    if alt.Some? {
      ok := SerializeStmt(result, alt.value);
      if !ok { return; }
    }
    BytesExtend(old(result.bytes), [h], EmitExpr(test).value);
    BytesExtend(old(result.bytes), [h] + EmitExpr(test).value, EmitStmt(cons).value);
    BytesExtend(old(result.bytes), [h] + EmitExpr(test).value + EmitStmt(cons).value, if alt.Some? then EmitStmt(alt.value).value else []);
  }

  /** A `try`: counts the block, the handler and the finalizer, but writes only
      the block. */
  method SerializeTry(result: ByteVec, s: Stmt) returns (ok: bool)
    requires s.Try?
    modifies result
    decreases s, 0
    ensures ok == EmitStmt(s).Some?
    ensures ok ==> result.bytes == old(result.bytes) + Bytes(EmitStmt(s).value)
  {
    var block, handler, finalizer := s.block, s.handler, s.finalizer;
    ok := true;
    var count := 1;
    if finalizer.Some? {
      count := count + 1;
    }
    if handler.Some? {
      count := count + 1;
    }
    PushKind(result, K.Try, count);
    ok := SerializeBlock(result, block);
    if !ok { return; }
    BytesExtend(old(result.bytes), [Header(K.Try, count)], EmitBlock(block).value);
  }

  /** A `while`: the test, then the body. */
  method SerializeWhile(result: ByteVec, s: Stmt) returns (ok: bool)
    requires s.While?
    modifies result
    decreases s, 0
    ensures ok == EmitStmt(s).Some?
    ensures ok ==> result.bytes == old(result.bytes) + Bytes(EmitStmt(s).value)
  {
    var test, body := s.test, s.body;
    PushKind(result, K.While, 2);
    ok := SerializeExpr(result, test);
    if !ok { return; }
    ok := SerializeStmt(result, body);
    if !ok { return; }
    BytesExtend(old(result.bytes), [Header(K.While, 2)], EmitExpr(test).value);
    BytesExtend(old(result.bytes), [Header(K.While, 2)] + EmitExpr(test).value, EmitStmt(body).value);
  }

  /** A `do`-`while`: the test is written before the body. */
  method SerializeDoWhile(result: ByteVec, s: Stmt) returns (ok: bool)
    requires s.DoWhile?
    modifies result
    decreases s, 0
    ensures ok == EmitStmt(s).Some?
    ensures ok ==> result.bytes == old(result.bytes) + Bytes(EmitStmt(s).value)
  {
    var body, test := s.body, s.test;
    PushKind(result, K.DoWhile, 2);
    ok := SerializeExpr(result, test);
    if !ok { return; }
    ok := SerializeStmt(result, body);
    if !ok { return; }
    BytesExtend(old(result.bytes), [Header(K.DoWhile, 2)], EmitExpr(test).value);
    BytesExtend(old(result.bytes), [Header(K.DoWhile, 2)] + EmitExpr(test).value, EmitStmt(body).value);
  }

  /** A C-style `for`: always 4 children, with an `EmptyExpr` placeholder for
      each absent slot; a `var` initializer is written as a declaration. */
  method SerializeFor(result: ByteVec, s: Stmt) returns (ok: bool)
    requires s.For?
    modifies result
    decreases s, 0
    ensures ok == EmitStmt(s).Some?
    ensures ok ==> result.bytes == old(result.bytes) + Bytes(EmitStmt(s).value)
  {
    var init, test, update, body := s.forInit, s.forTest, s.forUpdate, s.body;
    ok := true;
    PushKind(result, K.For, 4);
    match init {
      case Some(InitVarDecl(v)) =>
        ok := SerializeVarDecl(result, v);
      case Some(InitExpr(x)) =>
        ok := SerializeExpr(result, x);
      case None =>
        PushKind(result, K.EmptyExpr, 0);
    }
    if !ok { return; }
    ok := SerializeOptExpr(result, test);
    if !ok { return; }
    ok := SerializeOptExpr(result, update);
    if !ok { return; }
    ok := SerializeStmt(result, body);
    if !ok { return; }
    BytesExtend(old(result.bytes), [Header(K.For, 4)], EmitForInit(init).value);
    BytesExtend(old(result.bytes), [Header(K.For, 4)] + EmitForInit(init).value, EmitOptExpr(test).value);
    BytesExtend(old(result.bytes), [Header(K.For, 4)] + EmitForInit(init).value + EmitOptExpr(test).value, EmitOptExpr(update).value);
    BytesExtend(old(result.bytes), [Header(K.For, 4)] + EmitForInit(init).value + EmitOptExpr(test).value + EmitOptExpr(update).value, EmitStmt(body).value);
  }

  /** A `for`-`in`: declares 3 children but writes only the right-hand side and
      the body; the left-hand side is not written. */
  method SerializeForIn(result: ByteVec, s: Stmt) returns (ok: bool)
    requires s.ForIn?
    modifies result
    decreases s, 0
    ensures ok == EmitStmt(s).Some?
    ensures ok ==> result.bytes == old(result.bytes) + Bytes(EmitStmt(s).value)
  {
    var right, body := s.right, s.body;
    PushKind(result, K.ForIn, 3);
    ok := SerializeExpr(result, right);
    if !ok { return; }
    ok := SerializeStmt(result, body);
    if !ok { return; }
    BytesExtend(old(result.bytes), [Header(K.ForIn, 3)], EmitExpr(right).value);
    BytesExtend(old(result.bytes), [Header(K.ForIn, 3)] + EmitExpr(right).value, EmitStmt(body).value);
  }

  /** A `for`-`of`: declares 3 children but writes only the right-hand side and
      the body; the left-hand side is not written. */
  method SerializeForOf(result: ByteVec, s: Stmt) returns (ok: bool)
    requires s.ForOf?
    modifies result
    decreases s, 0
    ensures ok == EmitStmt(s).Some?
    ensures ok ==> result.bytes == old(result.bytes) + Bytes(EmitStmt(s).value)
  {
    var right, body := s.right, s.body;
    PushKind(result, K.ForOf, 3);
    ok := SerializeExpr(result, right);
    if !ok { return; }
    ok := SerializeStmt(result, body);
    if !ok { return; }
    BytesExtend(old(result.bytes), [Header(K.ForOf, 3)], EmitExpr(right).value);
    BytesExtend(old(result.bytes), [Header(K.ForOf, 3)] + EmitExpr(right).value, EmitStmt(body).value);
  }

  /** An expression statement: one child, the expression. */
  method SerializeExprStmt(result: ByteVec, s: Stmt) returns (ok: bool)
    requires s.ExprStmt?
    modifies result
    decreases s, 0
    ensures ok == EmitStmt(s).Some?
    ensures ok ==> result.bytes == old(result.bytes) + Bytes(EmitStmt(s).value)
  {
    var expr := s.expr;
    PushKind(result, K.Expr, 1);
    ok := SerializeExpr(result, expr);
    if !ok { return; }
    BytesExtend(old(result.bytes), [Header(K.Expr, 1)], EmitExpr(expr).value);
  }


  /** The statements of a block, each in turn, after a `Block` record
      counting them; used for `Stmt::Block` and wherever the encoder
      re-wraps a body as one. */
  method SerializeBlock(result: ByteVec, b: BlockStmt) returns (ok: bool)
    modifies result
    decreases b, 1
    ensures ok == EmitBlock(b).Some?
    ensures ok ==> result.bytes == old(result.bytes) + Bytes(EmitBlock(b).value)
  {
    PushKind(result, K.Block, |b.stmts|);
    ok := SerializeStmts(result, b.stmts);
    if !ok { return; }
    BytesExtend(old(result.bytes), [Header(K.Block, |b.stmts|)], EmitStmts(b.stmts).value);
  }

  /** A statement list, in order. */
  method SerializeStmts(result: ByteVec, stmts: seq<Stmt>) returns (ok: bool)
    modifies result
    decreases stmts, 0
    ensures ok == EmitStmts(stmts).Some?
    ensures ok ==> result.bytes == old(result.bytes) + Bytes(EmitStmts(stmts).value)
  {
    ok := true;
    for i := 0 to |stmts|
      invariant EmitStmts(stmts[..i]).Some?
      invariant result.bytes == old(result.bytes) + Bytes(EmitStmts(stmts[..i]).value)
    {
      assert stmts[..i + 1][..i] == stmts[..i];
      ok := SerializeStmt(result, stmts[i]);
      if !ok {
        StmtsPrefix(stmts, i + 1);
        return;
      }
      BytesExtend(old(result.bytes), EmitStmts(stmts[..i]).value, EmitStmt(stmts[i]).value);
    }
    assert stmts[..|stmts|] == stmts;
  }

  /** A `switch`: its clause count, then one header per clause counting the
      clause's statements and its test; nothing inside a clause is written. */
  method SerializeSwitch(result: ByteVec, cases: seq<SwitchCase>)
    modifies result
    ensures result.bytes == old(result.bytes) + Bytes([Header(K.Switch, |cases|)] + EmitCases(cases))
  {
    PushKind(result, K.Switch, |cases|);
    ghost var start := result.bytes;
    for i := 0 to |cases|
      invariant result.bytes == start + Bytes(EmitCases(cases[..i]))
    {
      var count := if cases[i].test.Some? then |cases[i].cons| + 1 else |cases[i].cons|;
      PushKind(result, K.SwitchCase, count);
      assert cases[..i + 1][..i] == cases[..i];
      BytesExtend(start, EmitCases(cases[..i]), [Header(K.SwitchCase, count)]);
    }
    assert cases[..|cases|] == cases;
    BytesExtend(old(result.bytes), [Header(K.Switch, |cases|)], EmitCases(cases));
  }

  /** An optional `for` test or update: the expression, or an `EmptyExpr`
      placeholder when it is absent. */
  method SerializeOptExpr(result: ByteVec, e: Option<Expr>) returns (ok: bool)
    modifies result
    decreases e, 0
    ensures ok == EmitOptExpr(e).Some?
    ensures ok ==> result.bytes == old(result.bytes) + Bytes(EmitOptExpr(e).value)
  {
    match e
    case Some(x) =>
      ok := SerializeExpr(result, x);
    case None =>
      PushKind(result, K.EmptyExpr, 0);
      ok := true;
  }

  /** `serialize_decl`. */
  method SerializeDecl(result: ByteVec, d: Decl) returns (ok: bool)
    modifies result
    decreases d, 0
    ensures ok == EmitDecl(d).Some?
    ensures ok ==> result.bytes == old(result.bytes) + Bytes(EmitDecl(d).value)
  {
    ok := true;
    match d
    case Class =>
      PushKind(result, K.Class, 0);
    case Fn(fnBody) =>
      PushKind(result, K.Fn, 0);
      match fnBody {
        case Some(body) =>
          ok := SerializeBlock(result, body);
          if !ok { return; }
          BytesExtend(old(result.bytes), [Header(K.Fn, 0)], EmitBlock(body).value);
        case None =>
      }
    case Var(v) =>
      ok := SerializeVarDecl(result, v);
    case Using(decls) =>
      PushKind(result, K.Using, |decls|);
    case TsInterface(extendsCount, hasTypeParams) =>
      var count := 2 + extendsCount;
      if hasTypeParams {
        count := count + 1;
      }
      PushKind(result, K.TsInterface, count);
    case TsTypeAlias =>
      PushKind(result, K.TsTypeAlias, 0);
    case TsEnum(memberCount) =>
      PushKind(result, K.TsEnum, 1 + memberCount);
    case TsModule =>
      PushKind(result, K.TsModule, 0);
  }

  /** A variable declaration: a `Var` record counting the declarators, then
      each declarator. */
  method SerializeVarDecl(result: ByteVec, v: VarDecl) returns (ok: bool)
    modifies result
    decreases v, 0
    ensures ok == EmitVarDecl(v).Some?
    ensures ok ==> result.bytes == old(result.bytes) + Bytes(EmitVarDecl(v).value)
  {
    PushKind(result, K.Var, |v.decls|);
    ok := SerializeDeclarators(result, v.decls);
    if !ok { return; }
    BytesExtend(old(result.bytes), [Header(K.Var, |v.decls|)], EmitDeclarators(v.decls).value);
  }

  /** The declarators of a variable declaration, in order. */
  method SerializeDeclarators(result: ByteVec, ds: seq<VarDeclarator>) returns (ok: bool)
    modifies result
    decreases ds, 0
    ensures ok == EmitDeclarators(ds).Some?
    ensures ok ==> result.bytes == old(result.bytes) + Bytes(EmitDeclarators(ds).value)
  {
    ok := true;
    for i := 0 to |ds|
      invariant EmitDeclarators(ds[..i]).Some?
      invariant result.bytes == old(result.bytes) + Bytes(EmitDeclarators(ds[..i]).value)
    {
      assert ds[..i + 1][..i] == ds[..i];
      ok := SerializeDeclarator(result, ds[i]);
      if !ok {
        DeclaratorsPrefix(ds, i + 1);
        return;
      }
      BytesExtend(old(result.bytes), EmitDeclarators(ds[..i]).value, EmitDeclarator(ds[i]).value);
    }
    assert ds[..|ds|] == ds;
  }

  /** One declarator: its record, the bound name, then the initializer. */
  method SerializeDeclarator(result: ByteVec, d: VarDeclarator) returns (ok: bool)
    modifies result
    decreases d, 0
    ensures ok == EmitDeclarator(d).Some?
    ensures ok ==> result.bytes == old(result.bytes) + Bytes(EmitDeclarator(d).value)
  {
    var h := Header(K.VarDeclarator, if d.init.Some? then 2 else 1);
    PushKind(result, h.kind, h.count);
    ghost var name: seq<Header> := [];
    ok := true;
    match d.name {
      case PatIdent =>
        PushKind(result, K.Ident, 0);
        name := [Header(K.Ident, 0)];
      case PatExpr(x) =>
        ok := SerializeExpr(result, x);
        if !ok { return; }
        name := EmitExpr(x).value;
      case _ =>
    }
    if d.init.Some? {
      ok := SerializeExpr(result, d.init.value);
      if !ok { return; }
    }
    BytesExtend(old(result.bytes), [h], name);
    BytesExtend(old(result.bytes), [h] + name, if d.init.Some? then EmitExpr(d.init.value).value else []);
  }

  /** `serialize_expr`. */
  method SerializeExpr(result: ByteVec, e: Expr) returns (ok: bool)
    modifies result
    decreases e, 1
    ensures ok == EmitExpr(e).Some?
    ensures ok ==> result.bytes == old(result.bytes) + Bytes(EmitExpr(e).value)
  {
    if !HasVisitedChildren(e) {
      SerializeLeafExpr(result, e);
      ok := true;
      return;
    }
    match e {
      case Object(_) =>
        ok := SerializeObject(result, e);
      case Update(_) =>
        ok := SerializeUpdate(result, e);
      case Bin(_, _) =>
        ok := SerializeBin(result, e);
      case Assign(_, _) =>
        ok := SerializeAssign(result, e);
      case Member(m) =>
        ok := SerializeMember(result, m);
      case Cond(_, _, _) =>
        ok := SerializeCond(result, e);
      case Call(_, _) =>
        ok := SerializeCall(result, e);
      case New(_, _, _) =>
        ok := SerializeNew(result, e);
      case Seq(_) =>
        ok := SerializeSeq(result, e);
      case Arrow(_, _, _, _) =>
        ok := SerializeArrow(result, e);
      case Yield(_) =>
        ok := SerializeYield(result, e);
      case Await(_) =>
        ok := SerializeAwait(result, e);
      case Paren(_) =>
        ok := SerializeParen(result, e);
      case TsConstAssertion(_) =>
        ok := SerializeTsConstAssertion(result, e);
      case TsNonNull(_) =>
        ok := SerializeTsNonNull(result, e);
      case TsAs(_, _) =>
        ok := SerializeTsAs(result, e);
      case TsInstantiation(_) =>
        ok := SerializeTsInstantiation(result, e);
      case TsSatisfies(_, _) =>
        ok := SerializeTsSatisfies(result, e);
    }
  }

  /** An expression form whose children, if any, are not visited: one
      record, or nothing for a class expression or an invalid expression. */
  method SerializeLeafExpr(result: ByteVec, e: Expr)
    requires !HasVisitedChildren(e)
    modifies result
    ensures EmitExpr(e).Some?
    ensures result.bytes == old(result.bytes) + Bytes(EmitExpr(e).value)
  {
    match e
    case This =>
      PushKind(result, K.This, 0);
    case Array(elems) =>
      // The elements are counted but not written.
      PushKind(result, K.Array, |elems|);
    case FnExpr =>
      PushKind(result, K.FnExpr, 0);
    case Unary(_) =>
      PushKind(result, K.Unary, 1);
    case SuperProp =>
      PushKind(result, K.SuperProp, 2);
    case Ident =>
      PushKind(result, K.Ident, 0);
    case Lit(lit) =>
      SerializeLit(result, lit);
    case Tpl =>
      PushKind(result, K.Tpl, 0);
    case TaggedTpl =>
      PushKind(result, K.TaggedTpl, 0);
    case ClassExpr =>
      // Nothing is written for a class expression.
    case MetaProp =>
      PushKind(result, K.MetaProp, 0);
    case JSXMember =>
      PushKind(result, K.JSXMember, 0);
    case JSXNamespacedName =>
      PushKind(result, K.JSXNamespacedName, 0);
    case JSXEmpty =>
      PushKind(result, K.JSXEmpty, 0);
    case JSXElement =>
      PushKind(result, K.JSXElement, 0);
    case JSXFragment =>
      PushKind(result, K.JSXFragment, 0);
    case TsTypeAssertion =>
      PushKind(result, K.TsTypeAssertion, 0);
    case PrivateName =>
      PushKind(result, K.PrivateName, 0);
    case OptChain =>
      PushKind(result, K.OptChain, 0);
    case Invalid =>
      // Nothing is written for an invalid expression.
  }

  /** An object literal: counts its members, then writes each. */
  method SerializeObject(result: ByteVec, e: Expr) returns (ok: bool)
    requires e.Object?
    modifies result
    decreases e, 0
    ensures ok == EmitExpr(e).Some?
    ensures ok ==> result.bytes == old(result.bytes) + Bytes(EmitExpr(e).value)
  {
    var props := e.props;
    PushKind(result, K.Object, |props|);
    ok := SerializeProps(result, props);
    if !ok { return; }
    BytesExtend(old(result.bytes), [Header(K.Object, |props|)], EmitProps(props).value);
  }

  /** `++`/`--`: one child, the operand. */
  method SerializeUpdate(result: ByteVec, e: Expr) returns (ok: bool)
    requires e.Update?
    modifies result
    decreases e, 0
    ensures ok == EmitExpr(e).Some?
    ensures ok ==> result.bytes == old(result.bytes) + Bytes(EmitExpr(e).value)
  {
    var arg := e.arg;
    PushKind(result, K.Update, 1);
    ok := SerializeExpr(result, arg);
    if !ok { return; }
    BytesExtend(old(result.bytes), [Header(K.Update, 1)], EmitExpr(arg).value);
  }

  /** A binary expression: the left, then the right operand. */
  method SerializeBin(result: ByteVec, e: Expr) returns (ok: bool)
    requires e.Bin?
    modifies result
    decreases e, 0
    ensures ok == EmitExpr(e).Some?
    ensures ok ==> result.bytes == old(result.bytes) + Bytes(EmitExpr(e).value)
  {
    var left, right := e.left, e.right;
    PushKind(result, K.Bin, 2);
    ok := SerializeExpr(result, left);
    if !ok { return; }
    ok := SerializeExpr(result, right);
    if !ok { return; }
    BytesExtend(old(result.bytes), [Header(K.Bin, 2)], EmitExpr(left).value);
    BytesExtend(old(result.bytes), [Header(K.Bin, 2)] + EmitExpr(left).value, EmitExpr(right).value);
  }

  /** An assignment: 2 children; an identifier or member target is written, any
      other target is not; then the value. */
  method SerializeAssign(result: ByteVec, e: Expr) returns (ok: bool)
    requires e.Assign?
    modifies result
    decreases e, 0
    ensures ok == EmitExpr(e).Some?
    ensures ok ==> result.bytes == old(result.bytes) + Bytes(EmitExpr(e).value)
  {
    var target, value := e.target, e.value;
    ok := true;
    PushKind(result, K.Assign, 2);
    ghost var t: seq<Header> := [];
    match target {
      case TargetIdent =>
        PushKind(result, K.Ident, 0);
        t := [Header(K.Ident, 0)];
      case TargetMember(m) =>
        ok := SerializeMember(result, m);
        if !ok { return; }
        t := EmitMember(m).value;
      case TargetOther =>
    }
    ok := SerializeExpr(result, value);
    if !ok { return; }
    BytesExtend(old(result.bytes), [Header(K.Assign, 2)], t);
    BytesExtend(old(result.bytes), [Header(K.Assign, 2)] + t, EmitExpr(value).value);
  }

  /** A conditional expression: test, consequent, alternative. */
  method SerializeCond(result: ByteVec, e: Expr) returns (ok: bool)
    requires e.Cond?
    modifies result
    decreases e, 0
    ensures ok == EmitExpr(e).Some?
    ensures ok ==> result.bytes == old(result.bytes) + Bytes(EmitExpr(e).value)
  {
    var test, cons, alt := e.test, e.cons, e.alt;
    PushKind(result, K.Cond, 3);
    ok := SerializeExpr(result, test);
    if !ok { return; }
    ok := SerializeExpr(result, cons);
    if !ok { return; }
    ok := SerializeExpr(result, alt);
    if !ok { return; }
    BytesExtend(old(result.bytes), [Header(K.Cond, 3)], EmitExpr(test).value);
    BytesExtend(old(result.bytes), [Header(K.Cond, 3)] + EmitExpr(test).value, EmitExpr(cons).value);
    BytesExtend(old(result.bytes), [Header(K.Cond, 3)] + EmitExpr(test).value + EmitExpr(cons).value, EmitExpr(alt).value);
  }

  /** A call: declares the callee and the arguments; a `super` or `import`
      callee writes nothing; then the arguments. */
  method SerializeCall(result: ByteVec, e: Expr) returns (ok: bool)
    requires e.Call?
    modifies result
    decreases e, 0
    ensures ok == EmitExpr(e).Some?
    ensures ok ==> result.bytes == old(result.bytes) + Bytes(EmitExpr(e).value)
  {
    var callee, args := e.callee, e.args;
    ok := true;
    PushKind(result, K.Call, 1 + |args|);
    ghost var c: seq<Header> := [];
    match callee {
      case ExprCallee(x) =>
        ok := SerializeExpr(result, x);
        if !ok { return; }
        c := EmitExpr(x).value;
      case _ =>
    }
    ok := SerializeArgs(result, args);
    if !ok { return; }
    BytesExtend(old(result.bytes), [Header(K.Call, 1 + |args|)], c);
    BytesExtend(old(result.bytes), [Header(K.Call, 1 + |args|)] + c, EmitArgs(args).value);
  }

  /** A `new` expression: counts the callee, the arguments and the type
      arguments; writes the callee then the arguments. */
  method SerializeNew(result: ByteVec, e: Expr) returns (ok: bool)
    requires e.New?
    modifies result
    decreases e, 0
    ensures ok == EmitExpr(e).Some?
    ensures ok ==> result.bytes == old(result.bytes) + Bytes(EmitExpr(e).value)
  {
    var callee, args, hasTypeArgs := e.newCallee, e.newArgs, e.hasTypeArgs;
    ok := true;
    var count := 1;
    if args.ArgList? {
      count := count + |args.args|;
    }
    if hasTypeArgs {
      count := count + 1;
    }
    PushKind(result, K.New, count);
    ok := SerializeExpr(result, callee);
    if !ok { return; }
    BytesExtend(old(result.bytes), [Header(K.New, count)], EmitExpr(callee).value);
    ok := SerializeNewArgs(result, args);
    if !ok { return; }
    BytesExtend(old(result.bytes), [Header(K.New, count)] + EmitExpr(callee).value, EmitNewArgs(args).value);
  }

  /** The argument list of `new`, when present. */
  method SerializeNewArgs(result: ByteVec, args: NewArgs) returns (ok: bool)
    modifies result
    decreases args, 0
    ensures ok == EmitNewArgs(args).Some?
    ensures ok ==> result.bytes == old(result.bytes) + Bytes(EmitNewArgs(args).value)
  {
    match args
    case ArgList(xs) =>
      ok := SerializeArgs(result, xs);
    case NoArgs =>
      ok := true;
      assert old(result.bytes) + Bytes([]) == old(result.bytes);
  }

  /** A comma sequence: counts the expressions, then writes each. */
  method SerializeSeq(result: ByteVec, e: Expr) returns (ok: bool)
    requires e.Seq?
    modifies result
    decreases e, 0
    ensures ok == EmitExpr(e).Some?
    ensures ok ==> result.bytes == old(result.bytes) + Bytes(EmitExpr(e).value)
  {
    var exprs := e.exprs;
    PushKind(result, K.Seq, |exprs|);
    ok := SerializeExprs(result, exprs);
    if !ok { return; }
    BytesExtend(old(result.bytes), [Header(K.Seq, |exprs|)], EmitExprs(exprs).value);
  }

  /** An arrow function: counts the body, the parameters, the return type and
      the type parameters; writes only the body. */
  method SerializeArrow(result: ByteVec, e: Expr) returns (ok: bool)
    requires e.Arrow?
    modifies result
    decreases e, 0
    ensures ok == EmitExpr(e).Some?
    ensures ok ==> result.bytes == old(result.bytes) + Bytes(EmitExpr(e).value)
  {
    var paramCount, body, hasReturnType, hasTypeParams := e.paramCount, e.body, e.hasReturnType, e.hasTypeParams;
    ok := true;
    var count := 1 + paramCount;
    if hasReturnType {
      count := count + 1;
    }
    if hasTypeParams {
      count := count + 1;
    }
    PushKind(result, K.Arrow, count);
    ok := SerializeArrowBody(result, body);
    if !ok { return; }
    BytesExtend(old(result.bytes), [Header(K.Arrow, count)], EmitArrowBody(body).value);
  }

  /** An arrow function's body. */
  method SerializeArrowBody(result: ByteVec, body: ArrowBody) returns (ok: bool)
    modifies result
    decreases body, 0
    ensures ok == EmitArrowBody(body).Some?
    ensures ok ==> result.bytes == old(result.bytes) + Bytes(EmitArrowBody(body).value)
  {
    match body
    case BodyBlock(block) =>
      ok := SerializeBlock(result, block);
    case BodyExpr(x) =>
      ok := SerializeExpr(result, x);
  }

  /** A `yield`: one child when it has an argument. */
  method SerializeYield(result: ByteVec, e: Expr) returns (ok: bool)
    requires e.Yield?
    modifies result
    decreases e, 0
    ensures ok == EmitExpr(e).Some?
    ensures ok ==> result.bytes == old(result.bytes) + Bytes(EmitExpr(e).value)
  {
    var arg := e.yieldArg;
    ok := true;
    PushKind(result, K.Yield, if arg.Some? then 1 else 0);
    if arg.Some? {
      ok := SerializeExpr(result, arg.value);
      if !ok { return; }
      BytesExtend(old(result.bytes), [Header(K.Yield, 1)], EmitExpr(arg.value).value);
    }
  }

  /** An `await`: one child, the operand. */
  method SerializeAwait(result: ByteVec, e: Expr) returns (ok: bool)
    requires e.Await?
    modifies result
    decreases e, 0
    ensures ok == EmitExpr(e).Some?
    ensures ok ==> result.bytes == old(result.bytes) + Bytes(EmitExpr(e).value)
  {
    var arg := e.awaitArg;
    PushKind(result, K.Await, 1);
    ok := SerializeExpr(result, arg);
    if !ok { return; }
    BytesExtend(old(result.bytes), [Header(K.Await, 1)], EmitExpr(arg).value);
  }

  /** A parenthesized expression, written as a one-element `Seq`. */
  method SerializeParen(result: ByteVec, e: Expr) returns (ok: bool)
    requires e.Paren?
    modifies result
    decreases e, 0
    ensures ok == EmitExpr(e).Some?
    ensures ok ==> result.bytes == old(result.bytes) + Bytes(EmitExpr(e).value)
  {
    var inner := e.inner;
    ok := true;
    // A parenthesized expression is written as a one-element sequence.
    PushKind(result, K.Seq, 1);
    ok := SerializeExpr(result, inner);
    if !ok { return; }
    BytesExtend(old(result.bytes), [Header(K.Seq, 1)], EmitExpr(inner).value);
  }

  /** An `as const` assertion: one child, the expression. */
  method SerializeTsConstAssertion(result: ByteVec, e: Expr) returns (ok: bool)
    requires e.TsConstAssertion?
    modifies result
    decreases e, 0
    ensures ok == EmitExpr(e).Some?
    ensures ok ==> result.bytes == old(result.bytes) + Bytes(EmitExpr(e).value)
  {
    var x := e.asserted;
    PushKind(result, K.TsConstAssertion, 1);
    ok := SerializeExpr(result, x);
    if !ok { return; }
    BytesExtend(old(result.bytes), [Header(K.TsConstAssertion, 1)], EmitExpr(x).value);
  }

  /** A non-null assertion: one child, the expression. */
  method SerializeTsNonNull(result: ByteVec, e: Expr) returns (ok: bool)
    requires e.TsNonNull?
    modifies result
    decreases e, 0
    ensures ok == EmitExpr(e).Some?
    ensures ok ==> result.bytes == old(result.bytes) + Bytes(EmitExpr(e).value)
  {
    var x := e.nonNull;
    PushKind(result, K.TsNonNull, 1);
    ok := SerializeExpr(result, x);
    if !ok { return; }
    BytesExtend(old(result.bytes), [Header(K.TsNonNull, 1)], EmitExpr(x).value);
  }

  /** An `as` expression: declares 2 children; the type writes nothing. */
  method SerializeTsAs(result: ByteVec, e: Expr) returns (ok: bool)
    requires e.TsAs?
    modifies result
    decreases e, 0
    ensures ok == EmitExpr(e).Some?
    ensures ok ==> result.bytes == old(result.bytes) + Bytes(EmitExpr(e).value)
  {
    var x := e.asExpr;
    PushKind(result, K.TsAs, 2);
    ok := SerializeExpr(result, x);
    if !ok { return; }
    BytesExtend(old(result.bytes), [Header(K.TsAs, 2)], EmitExpr(x).value);
    SerializeTsType(result, e.asType);
    BytesExtend(old(result.bytes), [Header(K.TsAs, 2)] + EmitExpr(x).value, EmitTsType(e.asType));
  }

  /** An instantiation expression: declares 2 children; only the expression is written. */
  method SerializeTsInstantiation(result: ByteVec, e: Expr) returns (ok: bool)
    requires e.TsInstantiation?
    modifies result
    decreases e, 0
    ensures ok == EmitExpr(e).Some?
    ensures ok ==> result.bytes == old(result.bytes) + Bytes(EmitExpr(e).value)
  {
    var x := e.instantiated;
    PushKind(result, K.TsInstantiation, 2);
    ok := SerializeExpr(result, x);
    if !ok { return; }
    BytesExtend(old(result.bytes), [Header(K.TsInstantiation, 2)], EmitExpr(x).value);
  }

  /** A `satisfies` expression: declares 2 children; the type writes nothing. */
  method SerializeTsSatisfies(result: ByteVec, e: Expr) returns (ok: bool)
    requires e.TsSatisfies?
    modifies result
    decreases e, 0
    ensures ok == EmitExpr(e).Some?
    ensures ok ==> result.bytes == old(result.bytes) + Bytes(EmitExpr(e).value)
  {
    var x := e.satisfiesExpr;
    PushKind(result, K.TsSatisfies, 2);
    ok := SerializeExpr(result, x);
    if !ok { return; }
    BytesExtend(old(result.bytes), [Header(K.TsSatisfies, 2)], EmitExpr(x).value);
    SerializeTsType(result, e.satisfiesType);
    BytesExtend(old(result.bytes), [Header(K.TsSatisfies, 2)] + EmitExpr(x).value, EmitTsType(e.satisfiesType));
  }


  /** A type annotation: no type form writes a record yet. */
  method SerializeTsType(result: ByteVec, t: TsType)
    modifies result
    ensures result.bytes == old(result.bytes) + Bytes(EmitTsType(t))
  {
    assert old(result.bytes) + Bytes(EmitTsType(t)) == old(result.bytes);
  }

  /** A member expression: its record, the object, then a computed property. */
  method SerializeMember(result: ByteVec, m: MemberExpr) returns (ok: bool)
    modifies result
    decreases m, 0
    ensures ok == EmitMember(m).Some?
    ensures ok ==> result.bytes == old(result.bytes) + Bytes(EmitMember(m).value)
  {
    PushKind(result, K.Member, 2);
    ok := SerializeExpr(result, m.obj);
    if !ok { return; }
    ghost var p: seq<Header> := [];
    match m.prop {
      case Computed(x) =>
        ok := SerializeExpr(result, x);
        if !ok { return; }
        p := EmitExpr(x).value;
      case _ =>
    }
    BytesExtend(old(result.bytes), [Header(K.Member, 2)], EmitExpr(m.obj).value);
    BytesExtend(old(result.bytes), [Header(K.Member, 2)] + EmitExpr(m.obj).value, p);
  }

  /** The elements of a sequence expression, in order. */
  method SerializeExprs(result: ByteVec, exprs: seq<Expr>) returns (ok: bool)
    modifies result
    decreases exprs, 0
    ensures ok == EmitExprs(exprs).Some?
    ensures ok ==> result.bytes == old(result.bytes) + Bytes(EmitExprs(exprs).value)
  {
    ok := true;
    for i := 0 to |exprs|
      invariant EmitExprs(exprs[..i]).Some?
      invariant result.bytes == old(result.bytes) + Bytes(EmitExprs(exprs[..i]).value)
    {
      assert exprs[..i + 1][..i] == exprs[..i];
      ok := SerializeExpr(result, exprs[i]);
      if !ok {
        ExprsPrefix(exprs, i + 1);
        return;
      }
      BytesExtend(old(result.bytes), EmitExprs(exprs[..i]).value, EmitExpr(exprs[i]).value);
    }
    assert exprs[..|exprs|] == exprs;
  }

  /** The arguments of a call or `new`, in order. */
  method SerializeArgs(result: ByteVec, args: seq<ExprOrSpread>) returns (ok: bool)
    modifies result
    decreases args, 0
    ensures ok == EmitArgs(args).Some?
    ensures ok ==> result.bytes == old(result.bytes) + Bytes(EmitArgs(args).value)
  {
    ok := true;
    for i := 0 to |args|
      invariant EmitArgs(args[..i]).Some?
      invariant result.bytes == old(result.bytes) + Bytes(EmitArgs(args[..i]).value)
    {
      assert args[..i + 1][..i] == args[..i];
      ok := SerializeArg(result, args[i]);
      if !ok {
        ArgsPrefix(args, i + 1);
        return;
      }
      BytesExtend(old(result.bytes), EmitArgs(args[..i]).value, EmitArg(args[i]).value);
    }
    assert args[..|args|] == args;
  }

  /** One argument: a `Spread` record first if it is spread, then the expression. */
  method SerializeArg(result: ByteVec, a: ExprOrSpread) returns (ok: bool)
    modifies result
    decreases a, 0
    ensures ok == EmitArg(a).Some?
    ensures ok ==> result.bytes == old(result.bytes) + Bytes(EmitArg(a).value)
  {
    ghost var marker: seq<Header> := [];
    if a.spread {
      PushKind(result, K.Spread, 1);
      marker := [Header(K.Spread, 1)];
    } else {
      assert old(result.bytes) + Bytes(marker) == old(result.bytes);
    }
    ok := SerializeExpr(result, a.expr);
    if !ok { return; }
    BytesExtend(old(result.bytes), marker, EmitExpr(a.expr).value);
  }

  /** The members of an object literal, in order. */
  method SerializeProps(result: ByteVec, props: seq<PropOrSpread>) returns (ok: bool)
    modifies result
    decreases props, 0
    ensures ok == EmitProps(props).Some?
    ensures ok ==> result.bytes == old(result.bytes) + Bytes(EmitProps(props).value)
  {
    ok := true;
    for i := 0 to |props|
      invariant EmitProps(props[..i]).Some?
      invariant result.bytes == old(result.bytes) + Bytes(EmitProps(props[..i]).value)
    {
      assert props[..i + 1][..i] == props[..i];
      ok := SerializeProp(result, props[i]);
      if !ok {
        PropsPrefix(props, i + 1);
        return;
      }
      BytesExtend(old(result.bytes), EmitProps(props[..i]).value, EmitProp(props[i]).value);
    }
    assert props[..|props|] == props;
  }

  /** One object-literal member. */
  method SerializeProp(result: ByteVec, p: PropOrSpread) returns (ok: bool)
    modifies result
    decreases p, 0
    ensures ok == EmitProp(p).Some?
    ensures ok ==> result.bytes == old(result.bytes) + Bytes(EmitProp(p).value)
  {
    ok := true;
    match p
    case SpreadProp(x) =>
      PushKind(result, K.Spread, 1);
      ok := SerializeExpr(result, x);
      if !ok { return; }
      BytesExtend(old(result.bytes), [Header(K.Spread, 1)], EmitExpr(x).value);
    case Shorthand =>
      PushKind(result, K.Ident, 0);
    case KeyValue(v) =>
      ok := SerializeExpr(result, v);
    case AssignProp(v) =>
      PushKind(result, K.Assign, 2);
      PushKind(result, K.Ident, 0);
      ok := SerializeExpr(result, v);
      if !ok { return; }
      BytesExtend(old(result.bytes), [Header(K.Assign, 2)], [Header(K.Ident, 0)]);
      BytesExtend(old(result.bytes), [Header(K.Assign, 2)] + [Header(K.Ident, 0)], EmitExpr(v).value);
    case Getter(Some(body)) =>
      ok := SerializeBlock(result, body);
    case Setter(Some(body)) =>
      ok := SerializeBlock(result, body);
    case Method(Some(body)) =>
      ok := SerializeBlock(result, body);
    case _ =>
      // An accessor or method without a body writes nothing.
  }

  /** `serialize_lit`. */
  method SerializeLit(result: ByteVec, l: Lit)
    modifies result
    ensures result.bytes == old(result.bytes) + Bytes(EmitLit(l))
  {
    match l
    case Str => PushKind(result, K.StringLiteral, 0);
    case Bool => PushKind(result, K.Bool, 0);
    case Null => PushKind(result, K.Null, 0);
    case Num => PushKind(result, K.Num, 0);
    case BigInt => PushKind(result, K.BigInt, 0);
    case Regex => PushKind(result, K.Regex, 0);
    case JSXText => PushKind(result, K.JSXText, 0);
  }
}
