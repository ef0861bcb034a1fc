/** The record layout of the buffer, construct by construct, for every
    program the encoder does not panic on.

    These facts hold whether or not a record's declared count matches the
    records written after it; `WellFormed` shows where it does. */
module Layout {
  import opened Wrappers
  import opened Syntax
  import opened Wire
  import opened Emit
  import opened Decode
  import opened Root
  import K = Tags

  /** The number of top-level module items or script statements. */
  function BodyLength(p: Program): nat
  {
    match p
    case Module(body) => |body|
    case Script(stmts) => |stmts|
  }

  /** The record of a node kind with the given stored count. */
  function KindRecord(k: K.AstNode, count: nat): Record
  {
    Record(K.Tag(k), 0, count)
  }

  /** The buffer starts with exactly one `Program` record, whose count is
      the length of the body, and the records of the items or statements
      follow in source order; no later record has the `Program` tag. */
  lemma ProgramRecords(p: Program)
    requires Encode(p).Some?
    ensures p.Module? ==> EmitItems(p.body).Some?
    ensures p.Script? ==> EmitStmts(p.stmts).Some?
    ensures var rs := Records(Encode(p).value);
      |rs| >= 1
      && rs[0] == KindRecord(K.Program, StoredCount(BodyLength(p)))
      && rs[1..] == View(if p.Module? then EmitItems(p.body).value else EmitStmts(p.stmts).value)
      && forall i | 1 <= i < |rs| :: rs[i].kind != K.Tag(K.Program)
  {
    var hs := EmitProgram(p).value;
    RecordsOfBytes(hs);
    assert hs[0] == Header(K.Program, BodyLength(p));
    assert View(hs)[1..] == View(hs[1..]);
    if p.Module? {
      ItemsWithoutProgram(p.body);
    } else {
      StmtsWithoutProgram(p.stmts);
    }
    assert WithoutProgram(hs[1..]);
    forall i | 1 <= i < |hs|
      ensures View(hs)[i].kind != K.Tag(K.Program)
    {
      assert hs[i] in hs[1..];
      K.TagsDistinct(hs[i].kind, K.Program);
    }
  }

  /** Every record of the buffer has a kind below 86, flags 0 and a stored
      count below 127, and the buffer is exactly its records. */
  lemma RecordsWellTyped(p: Program)
    requires Encode(p).Some?
    ensures var rs := Records(Encode(p).value);
      |Encode(p).value| == RecordSize * |rs|
      && forall i | 0 <= i < |rs| :: rs[i].kind as nat < K.KindCount && rs[i].flags == 0 && rs[i].count < CountLimit
  {
    var hs := EmitProgram(p).value;
    RecordsOfBytes(hs);
  }

  /** An `if` declares 3 children exactly when it has an `else` branch, and
      2 otherwise; its test, consequent and alternative follow in that
      order. */
  lemma IfRecords(s: Stmt)
    requires s.If? && EmitStmt(s).Some?
    ensures EmitExpr(s.test).Some? && EmitStmt(s.cons).Some?
    ensures s.alt.Some? ==> EmitStmt(s.alt.value).Some?
    ensures var rs := View(EmitStmt(s).value);
      |rs| >= 1
      && rs[0] == KindRecord(K.If, if s.alt.Some? then 3 else 2)
      && (rs[0].count == 3 <==> s.alt.Some?)
      && rs[1..] == View(EmitExpr(s.test).value) + View(EmitStmt(s.cons).value)
                    + (if s.alt.Some? then View(EmitStmt(s.alt.value).value) else [])
  {
    var t, c := EmitExpr(s.test).value, EmitStmt(s.cons).value;
    var a := if s.alt.Some? then EmitStmt(s.alt.value).value else [];
    assert EmitStmt(s).value == [Header(K.If, if s.alt.Some? then 3 else 2)] + (t + c + a);
    ViewAppend([Header(K.If, if s.alt.Some? then 3 else 2)], t + c + a);
    ViewAppend(t + c, a);
    ViewAppend(t, c);
  }

  /** The `EmptyExpr` placeholder written for an absent `for` slot. */
  function Placeholder(): Record
  {
    KindRecord(K.EmptyExpr, 0)
  }

  /** A `for` always declares 4 children: the initializer, test, update and
      body follow in that order; each absent slot is one `EmptyExpr`
      record, and a `var` initializer starts with a `Var` record counting
      its declarators. */
  lemma ForRecords(s: Stmt)
    requires s.For? && EmitStmt(s).Some?
    ensures EmitForInit(s.forInit).Some? && EmitOptExpr(s.forTest).Some?
    ensures EmitOptExpr(s.forUpdate).Some? && EmitStmt(s.body).Some?
    ensures var rs := View(EmitStmt(s).value);
      var i, t, u := View(EmitForInit(s.forInit).value), View(EmitOptExpr(s.forTest).value), View(EmitOptExpr(s.forUpdate).value);
      |rs| >= 1
      && rs[0] == KindRecord(K.For, 4)
      && rs[1..] == i + t + u + View(EmitStmt(s.body).value)
      && (s.forInit.None? ==> i == [Placeholder()])
      && (s.forTest.None? ==> t == [Placeholder()])
      && (s.forUpdate.None? ==> u == [Placeholder()])
  {
    var i, t, u := EmitForInit(s.forInit).value, EmitOptExpr(s.forTest).value, EmitOptExpr(s.forUpdate).value;
    var b := EmitStmt(s.body).value;
    assert EmitStmt(s).value == [Header(K.For, 4)] + (i + t + u + b);
    ViewAppend([Header(K.For, 4)], i + t + u + b);
    ViewAppend(i + t + u, b);
    ViewAppend(i + t, u);
    ViewAppend(i, t);
  }

  /** A `var` initializer of a `for` is written as the declaration itself. */
  lemma ForVarInitRecords(v: VarDecl)
    requires EmitForInit(Some(InitVarDecl(v))).Some?
    ensures EmitVarDecl(v).Some?
    ensures var rs := View(EmitForInit(Some(InitVarDecl(v))).value);
      |rs| >= 1 && rs[0] == KindRecord(K.Var, StoredCount(|v.decls|))
  {
    VarRecords(v);
  }

  /** A `var` declaration counts its declarators, whose records follow. */
  lemma VarRecords(v: VarDecl)
    requires EmitVarDecl(v).Some?
    ensures EmitDeclarators(v.decls).Some?
    ensures var rs := View(EmitVarDecl(v).value);
      |rs| >= 1
      && rs[0] == KindRecord(K.Var, StoredCount(|v.decls|))
      && rs[1..] == View(EmitDeclarators(v.decls).value)
  {
    var hs := EmitVarDecl(v).value;
    assert View(hs)[1..] == View(hs[1..]);
  }

  /** A declarator with an identifier name declares 2 children with an
      initializer and 1 without: an `Ident` record, then the
      initializer's records. */
  lemma DeclaratorRecords(d: VarDeclarator)
    requires d.name.PatIdent? && EmitDeclarator(d).Some?
    ensures d.init.Some? ==> EmitExpr(d.init.value).Some?
    ensures var rs := View(EmitDeclarator(d).value);
      |rs| >= 2
      && rs[0] == KindRecord(K.VarDeclarator, if d.init.Some? then 2 else 1)
      && rs[1] == KindRecord(K.Ident, 0)
      && rs[2..] == (if d.init.Some? then View(EmitExpr(d.init.value).value) else [])
  {
    var hs := EmitDeclarator(d).value;
    var x := if d.init.Some? then EmitExpr(d.init.value).value else [];
    assert hs == [Header(K.VarDeclarator, if d.init.Some? then 2 else 1), Header(K.Ident, 0)] + x;
    assert View(hs)[2..] == View(hs[2..]);
  }

  /** A call declares `1 + |args|` children whatever its arguments are; a
      `super` or `import` callee writes no record, an expression callee
      its own records, and the arguments follow. */
  lemma CallRecords(e: Expr)
    requires e.Call? && EmitExpr(e).Some?
    ensures e.callee.ExprCallee? ==> EmitExpr(e.callee.calleeExpr).Some?
    ensures EmitArgs(e.args).Some?
    ensures var rs := View(EmitExpr(e).value);
      var c := if e.callee.ExprCallee? then View(EmitExpr(e.callee.calleeExpr).value) else [];
      |rs| >= 1
      && rs[0] == KindRecord(K.Call, StoredCount(1 + |e.args|))
      && rs[1..] == c + View(EmitArgs(e.args).value)
  {
    var c := if e.callee.ExprCallee? then EmitExpr(e.callee.calleeExpr).value else [];
    var a := EmitArgs(e.args).value;
    var hs := EmitExpr(e).value;
    assert hs == [Header(K.Call, 1 + |e.args|)] + (c + a);
    ViewAppend([Header(K.Call, 1 + |e.args|)], c + a);
    ViewAppend(c, a);
  }

  /** A spread argument is preceded by a `Spread` record declaring 1; a
      plain argument is its expression's records alone. */
  lemma ArgRecords(a: ExprOrSpread)
    requires EmitArg(a).Some?
    ensures EmitExpr(a.expr).Some?
    ensures var rs := View(EmitArg(a).value);
      var x := View(EmitExpr(a.expr).value);
      (a.spread ==> rs == [KindRecord(K.Spread, 1)] + x)
      && (!a.spread ==> rs == x)
  {
    var x := EmitExpr(a.expr).value;
    if a.spread {
      ViewAppend([Header(K.Spread, 1)], x);
    } else {
      assert [] + x == x;
    }
  }

  /** A `return` with an argument declares 1 child but writes none, so a
      program made of such a statement cannot be decoded by its counts:
      the decoder runs out of records. */
  lemma ReturnArgumentNotWritten(x: Expr)
    ensures Encode(Script([Return(Some(x))])) == Some(Bytes([Header(K.Program, 1), Header(K.Return, 1)]))
    ensures DecodeBuffer(Encode(Script([Return(Some(x))])).value) == None
  {
    var p := Script([Return(Some(x))]);
    var hs := [Header(K.Program, 1), Header(K.Return, 1)];
    var body := [Return(Some(x))];
    assert body[..|body| - 1] == [];
    assert EmitStmts([]) == Some([]);
    assert EmitStmt(body[|body| - 1]) == Some([Header(K.Return, 1)]);
    assert [] + [Header(K.Return, 1)] == [Header(K.Return, 1)];
    assert EmitStmts(body) == Some([Header(K.Return, 1)]);
    RecordsOfBytes(hs);
    var rs := View(hs);
    assert rs[1..][1..] == [];
  }
}
