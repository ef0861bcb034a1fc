/** The abstract syntax tree the encoder walks.

    Only what the encoder inspects is kept: child subtrees it recurses into,
    whether optional parts are present, and list lengths where it only counts
    them. Spans are dropped because the encoder never writes them. Subtrees
    the encoder never visits are kept where the source type has one (the
    argument of `return`, the body of a labeled statement, ...) so that the
    model can show their records are absent from the output. */
module Syntax {
  import opened Wrappers

  /** A parsed file: an ES module (with import/export items) or a script. */
  datatype Program =
    | Module(body: seq<ModuleItem>)
    | Script(stmts: seq<Stmt>)

  datatype ModuleItem =
    | ModuleDeclItem(decl: ModuleDecl)
    | StmtItem(stmt: Stmt)

  /** Import/export forms; the encoder writes a leaf record for each. */
  datatype ModuleDecl =
    | Import
    | ExportDecl
    | ExportNamed
    | ExportDefaultDecl
    | ExportDefaultExpr
    | ExportAll
    | TsImportEquals
    | TsExportAssignment
    | TsNamespaceExport

  datatype Stmt =
    | Block(block: BlockStmt)
    | Empty
    | Debugger
    | With
    | Return(arg: Option<Expr>)
    | Labeled(body: Stmt)
    | Break(hasLabel: bool)
    | Continue(hasLabel: bool)
    | If(test: Expr, cons: Stmt, alt: Option<Stmt>)
    | Switch(cases: seq<SwitchCase>)
    | Throw(thrown: Expr)
    | Try(block: BlockStmt, handler: Option<BlockStmt>, finalizer: Option<BlockStmt>)
    | While(test: Expr, body: Stmt)
    | DoWhile(body: Stmt, test: Expr)
    | For(forInit: Option<ForInit>, forTest: Option<Expr>, forUpdate: Option<Expr>, body: Stmt)
    | ForIn(left: ForHead, right: Expr, body: Stmt)
    | ForOf(left: ForHead, right: Expr, body: Stmt)
    | DeclStmt(decl: Decl)
    | ExprStmt(expr: Expr)

  /** A braced statement list: a block statement, or the body of a `try`,
      a function, a getter, a setter, a method or an arrow function. */
  datatype BlockStmt = BlockStmt(stmts: seq<Stmt>)

  /** A `case` (test present) or `default` (no test) clause. */
  datatype SwitchCase = SwitchCase(test: Option<Expr>, cons: seq<Stmt>)

  /** The initializer slot of a C-style `for`. */
  datatype ForInit =
    | InitVarDecl(varDecl: VarDecl)
    | InitExpr(expr: Expr)

  /** The left-hand side of `for-in`/`for-of`; the encoder inspects none of it. */
  datatype ForHead = HeadVarDecl | HeadUsingDecl | HeadPat

  datatype Decl =
    | Class
    | Fn(fnBody: Option<BlockStmt>)
    | Var(varDecl: VarDecl)
    | Using(decls: seq<VarDeclarator>)
    | TsInterface(extendsCount: nat, hasTypeParams: bool)
    | TsTypeAlias
    | TsEnum(memberCount: nat)
    | TsModule

  datatype VarDecl = VarDecl(decls: seq<VarDeclarator>)

  datatype VarDeclarator = VarDeclarator(name: Pat, init: Option<Expr>)

  /** Binding patterns; only an identifier or an expression pattern is encoded. */
  datatype Pat =
    | PatIdent
    | PatArray
    | PatRest
    | PatObject
    | PatAssign
    | PatInvalid
    | PatExpr(expr: Expr)

  datatype Expr =
    | This
    | Array(elems: seq<Option<ExprOrSpread>>)
    | Object(props: seq<PropOrSpread>)
    | FnExpr
    | Unary(arg: Expr)
    | Update(arg: Expr)
    | Bin(left: Expr, right: Expr)
    | Assign(target: AssignTarget, value: Expr)
    | Member(member: MemberExpr)
    | SuperProp
    | Cond(test: Expr, cons: Expr, alt: Expr)
    | Call(callee: Callee, args: seq<ExprOrSpread>)
    | New(newCallee: Expr, newArgs: NewArgs, hasTypeArgs: bool)
    | Seq(exprs: seq<Expr>)
    | Ident
    | Lit(lit: Lit)
    | Tpl
    | TaggedTpl
    | Arrow(paramCount: nat, body: ArrowBody, hasReturnType: bool, hasTypeParams: bool)
    | ClassExpr
    | Yield(yieldArg: Option<Expr>)
    | MetaProp
    | Await(awaitArg: Expr)
    | Paren(inner: Expr)
    | JSXMember
    | JSXNamespacedName
    | JSXEmpty
    | JSXElement
    | JSXFragment
    | TsTypeAssertion
    | TsConstAssertion(asserted: Expr)
    | TsNonNull(nonNull: Expr)
    | TsAs(asExpr: Expr, asType: TsType)
    | TsInstantiation(instantiated: Expr)
    | TsSatisfies(satisfiesExpr: Expr, satisfiesType: TsType)
    | PrivateName
    | OptChain
    | Invalid

  /** The argument list of `new`, which `new C` leaves out. */
  datatype NewArgs = NoArgs | ArgList(args: seq<ExprOrSpread>)

  /** A call or `new` argument, or an array element; `spread` is the `...` marker. */
  datatype ExprOrSpread = ExprOrSpread(spread: bool, expr: Expr)

  /** An object-literal member. Getter, setter and method bodies are optional. */
  datatype PropOrSpread =
    | SpreadProp(spreadExpr: Expr)
    | Shorthand
    | KeyValue(kvValue: Expr)
    | AssignProp(assignValue: Expr)
    | Getter(getterBody: Option<BlockStmt>)
    | Setter(setterBody: Option<BlockStmt>)
    | Method(methodBody: Option<BlockStmt>)

  datatype AssignTarget =
    | TargetIdent
    | TargetMember(member: MemberExpr)
    /** A super-property, parenthesized, optional-chain or type-wrapped target,
        or a pattern. */
    | TargetOther

  /** `obj.prop`, `obj.#name` or `obj[expr]`; shared by member expressions and
      assignment targets. */
  datatype MemberExpr = MemberExpr(obj: Expr, prop: MemberProp)

  datatype MemberProp =
    | IdentProp
    | PrivateNameProp
    | Computed(propExpr: Expr)

  datatype Callee =
    | SuperCallee
    | ImportCallee
    | ExprCallee(calleeExpr: Expr)

  datatype ArrowBody =
    | BodyBlock(bodyBlock: BlockStmt)
    | BodyExpr(bodyExpr: Expr)

  datatype Lit = Str | Bool | Null | Num | BigInt | Regex | JSXText

  /** Type annotations: the encoder writes nothing for any of them. */
  datatype TsType =
    | TsKeywordType
    | TsThisType
    | TsFnOrConstructorType
    | TsTypeRef
    | TsTypeQuery
    | TsTypeLit
    | TsArrayType
    | TsTupleType
    | TsOptionalType
    | TsRestType
    | TsUnionOrIntersectionType
    | TsConditionalType
    | TsInferType
    | TsParenthesizedType
    | TsTypeOperator
    | TsIndexedAccessType
    | TsMappedType
    | TsLitType
    | TsTypePredicate
    | TsImportType
}
