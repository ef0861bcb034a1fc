/** The node-kind tag table and the flags byte of the binary AST format.

    Every record starts with a kind byte: the ordinal of the construct in the
    `AstNode` enumeration, counted in declaration order from `Invalid` = 0 to
    `VarDeclarator` = 85. The decoder reads these as raw integers, so the
    numbering is the wire contract. The flags byte has a single value, `None`
    (here `NoFlags`), written as 0. */
module Tags {
  import opened Wrappers

  /** An unsigned byte, the element type of the output buffer. */
  newtype u8 = x: int | 0 <= x < 0x100

  /** The node kinds, in declaration order. */
  datatype AstNode =
    | Invalid
    | Program
    // Module declarations
    | Import
    | ImportDecl
    | ExportDecl
    | ExportNamed
    | ExportDefaultDecl
    | ExportDefaultExpr
    | ExportAll
    | TsImportEquals
    | TsExportAssignment
    | TsNamespaceExport
    // Declarations
    | Class
    | Fn
    | Var
    | Using
    | TsInterface
    | TsTypeAlias
    | TsEnum
    | TsModule
    // Statements
    | Block
    | Empty
    | Debugger
    | With
    | Return
    | Labeled
    | Break
    | Continue
    | If
    | Switch
    | SwitchCase
    | Throw
    | Try
    | While
    | DoWhile
    | For
    | ForIn
    | ForOf
    | Decl
    | Expr
    // Expressions
    | This
    | Array
    | Object
    | FnExpr
    | Unary
    | Update
    | Bin
    | Assign
    | Member
    | SuperProp
    | Cond
    | Call
    | New
    | Seq
    | Ident
    | Tpl
    | TaggedTpl
    | Arrow
    | ClassExpr
    | Yield
    | MetaProp
    | Await
    | TsTypeAssertion
    | TsConstAssertion
    | TsNonNull
    | TsAs
    | TsInstantiation
    | TsSatisfies
    | PrivateName
    | OptChain
    // Literals
    | StringLiteral
    | Bool
    | Null
    | Num
    | BigInt
    | Regex
    // JSX
    | JSXMember
    | JSXNamespacedName
    | JSXEmpty
    | JSXElement
    | JSXFragment
    | JSXText
    // Synthetic markers
    | EmptyExpr
    | Spread
    | ObjProperty
    | VarDeclarator

  /** Number of node kinds. */
  const KindCount: nat := 86

  /** The `u8` value a kind is cast to (`m as u8`): its discriminant. */
  function Tag(k: AstNode): (t: u8)
    ensures (t as int) < KindCount
  {
    match k
    case Invalid => 0
    case Program => 1
    case Import => 2
    case ImportDecl => 3
    case ExportDecl => 4
    case ExportNamed => 5
    case ExportDefaultDecl => 6
    case ExportDefaultExpr => 7
    case ExportAll => 8
    case TsImportEquals => 9
    case TsExportAssignment => 10
    case TsNamespaceExport => 11
    case Class => 12
    case Fn => 13
    case Var => 14
    case Using => 15
    case TsInterface => 16
    case TsTypeAlias => 17
    case TsEnum => 18
    case TsModule => 19
    case Block => 20
    case Empty => 21
    case Debugger => 22
    case With => 23
    case Return => 24
    case Labeled => 25
    case Break => 26
    case Continue => 27
    case If => 28
    case Switch => 29
    case SwitchCase => 30
    case Throw => 31
    case Try => 32
    case While => 33
    case DoWhile => 34
    case For => 35
    case ForIn => 36
    case ForOf => 37
    case Decl => 38
    case Expr => 39
    case This => 40
    case Array => 41
    case Object => 42
    case FnExpr => 43
    case Unary => 44
    case Update => 45
    case Bin => 46
    case Assign => 47
    case Member => 48
    case SuperProp => 49
    case Cond => 50
    case Call => 51
    case New => 52
    case Seq => 53
    case Ident => 54
    case Tpl => 55
    case TaggedTpl => 56
    case Arrow => 57
    case ClassExpr => 58
    case Yield => 59
    case MetaProp => 60
    case Await => 61
    case TsTypeAssertion => 62
    case TsConstAssertion => 63
    case TsNonNull => 64
    case TsAs => 65
    case TsInstantiation => 66
    case TsSatisfies => 67
    case PrivateName => 68
    case OptChain => 69
    case StringLiteral => 70
    case Bool => 71
    case Null => 72
    case Num => 73
    case BigInt => 74
    case Regex => 75
    case JSXMember => 76
    case JSXNamespacedName => 77
    case JSXEmpty => 78
    case JSXElement => 79
    case JSXFragment => 80
    case JSXText => 81
    case EmptyExpr => 82
    case Spread => 83
    case ObjProperty => 84
    case VarDeclarator => 85
  }

  /** The kind a tag byte names, if any: what a decoder does with the kind
      byte, written out as the list of kinds in declaration order (in blocks
      of twelve). */
  function KindOf(t: u8): (k: Option<AstNode>)
    ensures k.Some? <==> (t as int) < KindCount
  {
    if t < 12 then Some(KindIn0(t))
    else if t < 24 then Some(KindIn1(t))
    else if t < 36 then Some(KindIn2(t))
    else if t < 48 then Some(KindIn3(t))
    else if t < 60 then Some(KindIn4(t))
    else if t < 72 then Some(KindIn5(t))
    else if t < 86 then Some(KindIn6(t))
    else None
  }

  /** The kinds with tags 0 .. 11, in declaration order. */
  function KindIn0(t: u8): AstNode
    requires 0 <= t < 12
  {
    if t == 0 then Invalid
    else if t == 1 then Program
    else if t == 2 then Import
    else if t == 3 then ImportDecl
    else if t == 4 then ExportDecl
    else if t == 5 then ExportNamed
    else if t == 6 then ExportDefaultDecl
    else if t == 7 then ExportDefaultExpr
    else if t == 8 then ExportAll
    else if t == 9 then TsImportEquals
    else if t == 10 then TsExportAssignment
    else TsNamespaceExport
  }

  /** The kinds with tags 12 .. 23, in declaration order. */
  function KindIn1(t: u8): AstNode
    requires 12 <= t < 24
  {
    if t == 12 then Class
    else if t == 13 then Fn
    else if t == 14 then Var
    else if t == 15 then Using
    else if t == 16 then TsInterface
    else if t == 17 then TsTypeAlias
    else if t == 18 then TsEnum
    else if t == 19 then TsModule
    else if t == 20 then Block
    else if t == 21 then Empty
    else if t == 22 then Debugger
    else With
  }

  /** The kinds with tags 24 .. 35, in declaration order. */
  function KindIn2(t: u8): AstNode
    requires 24 <= t < 36
  {
    if t == 24 then Return
    else if t == 25 then Labeled
    else if t == 26 then Break
    else if t == 27 then Continue
    else if t == 28 then If
    else if t == 29 then Switch
    else if t == 30 then SwitchCase
    else if t == 31 then Throw
    else if t == 32 then Try
    else if t == 33 then While
    else if t == 34 then DoWhile
    else For
  }

  /** The kinds with tags 36 .. 47, in declaration order. */
  function KindIn3(t: u8): AstNode
    requires 36 <= t < 48
  {
    if t == 36 then ForIn
    else if t == 37 then ForOf
    else if t == 38 then Decl
    else if t == 39 then Expr
    else if t == 40 then This
    else if t == 41 then Array
    else if t == 42 then Object
    else if t == 43 then FnExpr
    else if t == 44 then Unary
    else if t == 45 then Update
    else if t == 46 then Bin
    else Assign
  }

  /** The kinds with tags 48 .. 59, in declaration order. */
  function KindIn4(t: u8): AstNode
    requires 48 <= t < 60
  {
    if t == 48 then Member
    else if t == 49 then SuperProp
    else if t == 50 then Cond
    else if t == 51 then Call
    else if t == 52 then New
    else if t == 53 then Seq
    else if t == 54 then Ident
    else if t == 55 then Tpl
    else if t == 56 then TaggedTpl
    else if t == 57 then Arrow
    else if t == 58 then ClassExpr
    else Yield
  }

  /** The kinds with tags 60 .. 71, in declaration order. */
  function KindIn5(t: u8): AstNode
    requires 60 <= t < 72
  {
    if t == 60 then MetaProp
    else if t == 61 then Await
    else if t == 62 then TsTypeAssertion
    else if t == 63 then TsConstAssertion
    else if t == 64 then TsNonNull
    else if t == 65 then TsAs
    else if t == 66 then TsInstantiation
    else if t == 67 then TsSatisfies
    else if t == 68 then PrivateName
    else if t == 69 then OptChain
    else if t == 70 then StringLiteral
    else Bool
  }

  /** The kinds with tags 72 .. 85, in declaration order. */
  function KindIn6(t: u8): AstNode
    requires 72 <= t < 86
  {
    if t == 72 then Null
    else if t == 73 then Num
    else if t == 74 then BigInt
    else if t == 75 then Regex
    else if t == 76 then JSXMember
    else if t == 77 then JSXNamespacedName
    else if t == 78 then JSXEmpty
    else if t == 79 then JSXElement
    else if t == 80 then JSXFragment
    else if t == 81 then JSXText
    else if t == 82 then EmptyExpr
    else if t == 83 then Spread
    else if t == 84 then ObjProperty
    else VarDeclarator
  }
  /** The one flags value the encoder ever uses (`Flags::None`). */
  datatype Flags = NoFlags

  /** The `u8` value a flags value is cast to. */
  function FlagsByte(f: Flags): (b: u8)
    ensures b == 0
  {
    match f
    case NoFlags => 0
  }

  /** Decoding a kind byte recovers the kind it was encoded from. */
  lemma KindOfTag(k: AstNode)
    ensures KindOf(Tag(k)) == Some(k)
  {
    if k.Invalid? || k.Program? || k.Import? || k.ImportDecl? || k.ExportDecl? || k.ExportNamed? || k.ExportDefaultDecl? || k.ExportDefaultExpr? || k.ExportAll? || k.TsImportEquals? || k.TsExportAssignment? || k.TsNamespaceExport? {
      KindOfTag0(k);
    } else if k.Class? || k.Fn? || k.Var? || k.Using? || k.TsInterface? || k.TsTypeAlias? || k.TsEnum? || k.TsModule? || k.Block? || k.Empty? || k.Debugger? || k.With? {
      KindOfTag1(k);
    } else if k.Return? || k.Labeled? || k.Break? || k.Continue? || k.If? || k.Switch? || k.SwitchCase? || k.Throw? || k.Try? || k.While? || k.DoWhile? || k.For? {
      KindOfTag2(k);
    } else if k.ForIn? || k.ForOf? || k.Decl? || k.Expr? || k.This? || k.Array? || k.Object? || k.FnExpr? {
      KindOfTag3(k);
    } else if k.Unary? || k.Update? || k.Bin? || k.Assign? || k.Member? || k.SuperProp? {
      KindOfTag4(k);
    } else if k.Cond? || k.Call? || k.New? || k.Seq? || k.Ident? || k.Tpl? {
      KindOfTag5(k);
    } else if k.TaggedTpl? || k.Arrow? || k.ClassExpr? || k.Yield? || k.MetaProp? || k.Await? {
      KindOfTag6(k);
    } else if k.TsTypeAssertion? || k.TsConstAssertion? || k.TsNonNull? || k.TsAs? || k.TsInstantiation? {
      KindOfTag7(k);
    } else if k.TsSatisfies? || k.PrivateName? || k.OptChain? || k.StringLiteral? || k.Bool? {
      KindOfTag8(k);
    } else if k.Null? || k.Num? || k.BigInt? || k.Regex? {
      KindOfTag9(k);
    } else if k.JSXMember? || k.JSXNamespacedName? || k.JSXEmpty? || k.JSXElement? {
      KindOfTag10(k);
    } else if k.JSXFragment? || k.JSXText? || k.EmptyExpr? {
      KindOfTag11(k);
    } else {
      KindOfTag12(k);
    }
  }

  /** `KindOfTag` for the kinds with tags 0 .. 11. */
  lemma KindOfTag0(k: AstNode)
    requires k.Invalid? || k.Program? || k.Import? || k.ImportDecl? || k.ExportDecl? || k.ExportNamed? || k.ExportDefaultDecl? || k.ExportDefaultExpr? || k.ExportAll? || k.TsImportEquals? || k.TsExportAssignment? || k.TsNamespaceExport?
    ensures KindOf(Tag(k)) == Some(k)
  {
  }

  /** `KindOfTag` for the kinds with tags 12 .. 23. */
  lemma KindOfTag1(k: AstNode)
    requires k.Class? || k.Fn? || k.Var? || k.Using? || k.TsInterface? || k.TsTypeAlias? || k.TsEnum? || k.TsModule? || k.Block? || k.Empty? || k.Debugger? || k.With?
    ensures KindOf(Tag(k)) == Some(k)
  {
  }

  /** `KindOfTag` for the kinds with tags 24 .. 35. */
  lemma KindOfTag2(k: AstNode)
    requires k.Return? || k.Labeled? || k.Break? || k.Continue? || k.If? || k.Switch? || k.SwitchCase? || k.Throw? || k.Try? || k.While? || k.DoWhile? || k.For?
    ensures KindOf(Tag(k)) == Some(k)
  {
  }

  /** `KindOfTag` for the kinds with tags 36 .. 43. */
  lemma KindOfTag3(k: AstNode)
    requires k.ForIn? || k.ForOf? || k.Decl? || k.Expr? || k.This? || k.Array? || k.Object? || k.FnExpr?
    ensures KindOf(Tag(k)) == Some(k)
  {
  }

  /** `KindOfTag` for the kinds with tags 44 .. 49. */
  lemma KindOfTag4(k: AstNode)
    requires k.Unary? || k.Update? || k.Bin? || k.Assign? || k.Member? || k.SuperProp?
    ensures KindOf(Tag(k)) == Some(k)
  {
  }

  /** `KindOfTag` for the kinds with tags 50 .. 55. */
  lemma KindOfTag5(k: AstNode)
    requires k.Cond? || k.Call? || k.New? || k.Seq? || k.Ident? || k.Tpl?
    ensures KindOf(Tag(k)) == Some(k)
  {
  }

  /** `KindOfTag` for the kinds with tags 56 .. 61. */
  lemma KindOfTag6(k: AstNode)
    requires k.TaggedTpl? || k.Arrow? || k.ClassExpr? || k.Yield? || k.MetaProp? || k.Await?
    ensures KindOf(Tag(k)) == Some(k)
  {
  }

  /** `KindOfTag` for the kinds with tags 62 .. 66. */
  lemma KindOfTag7(k: AstNode)
    requires k.TsTypeAssertion? || k.TsConstAssertion? || k.TsNonNull? || k.TsAs? || k.TsInstantiation?
    ensures KindOf(Tag(k)) == Some(k)
  {
  }

  /** `KindOfTag` for the kinds with tags 67 .. 71. */
  lemma KindOfTag8(k: AstNode)
    requires k.TsSatisfies? || k.PrivateName? || k.OptChain? || k.StringLiteral? || k.Bool?
    ensures KindOf(Tag(k)) == Some(k)
  {
  }

  /** `KindOfTag` for the kinds with tags 72 .. 75. */
  lemma KindOfTag9(k: AstNode)
    requires k.Null? || k.Num? || k.BigInt? || k.Regex?
    ensures KindOf(Tag(k)) == Some(k)
  {
  }

  /** `KindOfTag` for the kinds with tags 76 .. 79. */
  lemma KindOfTag10(k: AstNode)
    requires k.JSXMember? || k.JSXNamespacedName? || k.JSXEmpty? || k.JSXElement?
    ensures KindOf(Tag(k)) == Some(k)
  {
  }

  /** `KindOfTag` for the kinds with tags 80 .. 82. */
  lemma KindOfTag11(k: AstNode)
    requires k.JSXFragment? || k.JSXText? || k.EmptyExpr?
    ensures KindOf(Tag(k)) == Some(k)
  {
  }

  /** `KindOfTag` for the kinds with tags 83 .. 85. */
  lemma KindOfTag12(k: AstNode)
    requires k.Spread? || k.ObjProperty? || k.VarDeclarator?
    ensures KindOf(Tag(k)) == Some(k)
  {
  }
  /** Every byte below the kind count is the tag of the kind it names: the
      tags are exactly the ordinals 0 .. 85, with no gap. */
  lemma TagOfKindOf(t: u8)
    requires (t as int) < KindCount
    ensures KindOf(t).Some? && Tag(KindOf(t).value) == t
  {
    if t < 12 {
      TagOfKindOf0(t);
    } else if t < 24 {
      TagOfKindOf1(t);
    } else if t < 36 {
      TagOfKindOf2(t);
    } else if t < 48 {
      TagOfKindOf3(t);
    } else if t < 60 {
      TagOfKindOf4(t);
    } else if t < 72 {
      TagOfKindOf5(t);
    } else {
      TagOfKindOf6(t);
    }
  }

  /** `TagOfKindOf` for the tags 0 .. 11. */
  lemma TagOfKindOf0(t: u8)
    requires 0 <= t < 12
    ensures KindOf(t).Some? && Tag(KindOf(t).value) == t
  {
  }

  /** `TagOfKindOf` for the tags 12 .. 23. */
  lemma TagOfKindOf1(t: u8)
    requires 12 <= t < 24
    ensures KindOf(t).Some? && Tag(KindOf(t).value) == t
  {
  }

  /** `TagOfKindOf` for the tags 24 .. 35. */
  lemma TagOfKindOf2(t: u8)
    requires 24 <= t < 36
    ensures KindOf(t).Some? && Tag(KindOf(t).value) == t
  {
  }

  /** `TagOfKindOf` for the tags 36 .. 47. */
  lemma TagOfKindOf3(t: u8)
    requires 36 <= t < 48
    ensures KindOf(t).Some? && Tag(KindOf(t).value) == t
  {
  }

  /** `TagOfKindOf` for the tags 48 .. 59. */
  lemma TagOfKindOf4(t: u8)
    requires 48 <= t < 60
    ensures KindOf(t).Some? && Tag(KindOf(t).value) == t
  {
  }

  /** `TagOfKindOf` for the tags 60 .. 71. */
  lemma TagOfKindOf5(t: u8)
    requires 60 <= t < 72
    ensures KindOf(t).Some? && Tag(KindOf(t).value) == t
  {
  }

  /** `TagOfKindOf` for the tags 72 .. 85. */
  lemma TagOfKindOf6(t: u8)
    requires 72 <= t < 86
    ensures KindOf(t).Some? && Tag(KindOf(t).value) == t
  {
  }

  /** No two kinds share a tag. */
  lemma TagsDistinct(a: AstNode, b: AstNode)
    ensures Tag(a) == Tag(b) <==> a == b
  {
    if Tag(a) == Tag(b) {
      KindOfTag(a);
      KindOfTag(b);
    }
  }
}
