# Binary AST encoder of `deno lint`, modelled in Dafny

`cli/tools/lint/ast.rs` turns a parsed JavaScript/TypeScript program into a
flat byte buffer for the JavaScript side of the linter. The walk is in
pre-order. For every node it visits, `push_node` appends one 14-byte record:

- the node kind as a byte: the ordinal of `AstNode`, 0 to 85;
- a flags byte, always `Flags::None` = 0;
- a declared child count, as the first byte of a 4-byte field, written as 0
  when it is 127 or more;
- eight span bytes, always 0.

The encoder then recurses into the children it visits. This project models
that encoder and proves what the buffer looks like.

- `Tags` (`tags.dfy`) holds the `AstNode` table and the flags byte. It proves
  that the tags are exactly the ordinals 0 to 85, with no gaps and no
  repeats.
- `Wire` (`wire.dfy`) defines the record `push_node` writes (`HeaderBytes`)
  and the record view of a buffer (`Records`). It proves that reading back
  the bytes of a run of `push_node` calls gives one record per call.
- `Syntax` (`syntax.dfy`) is the abstract syntax tree. It keeps only what the
  encoder reads: which optional parts are present, list lengths, the child
  subtrees, spread markers and the callee form.
- `Emit` (`emit.dfy`) gives, as pure functions, the `push_node` calls each
  `serialize_*` routine makes. Each call is a `Header`: a kind and the count
  handed to `push_node`. A `with` statement gives `None`, because the encoder
  reaches `todo!()` there. `Encode` is the buffer of a whole program.
- `Serializer` (`serializer.dfy`) is the encoder as it runs. A `ByteVec`
  class stands for the `Vec<u8>` and grows only by `Push`. There is one
  method per `serialize_*` routine and per list loop. Each method is proved
  to append exactly the bytes of the matching `Emit` function.
  `SerializeAstBin` returns exactly `Encode(p)`.
- `Layout` (`layout.dfy`) states, construct by construct, which records the
  buffer holds and in what order. It holds for every program the encoder
  does not panic on.
- `Root` (`root.dfy`) proves that no `serialize_*` routine pushes a
  `Program` record, so the driver's record is the only one in the buffer.
- `Decode` (`decode.dfy`) is a decoder that reads a record and then as many
  subtrees as its count says. It is used only as a proof device. `Shape`
  (`shape.dfy`) picks out the programs whose every declared count equals
  the number of child subtrees written (`Full*`) and gives the tree written
  for them (`Shape*`). `WellFormed` (`wellformed.dfy`) proves that such a
  buffer decodes back to that tree and uses up every record.

A record's count is a decoder's only way to find where a node's children
end. For most forms the count is exactly the number of child subtrees
written after the record, and `WellFormed` proves that a program built from
such forms decodes back to its tree. Many forms do not match, and the model
follows the code:

- A `return` with an argument, a `labeled` statement, `throw`, and a
  `break` or `continue` with a label each declare a child but write none.
  `Layout.ReturnArgumentNotWritten` shows a two-record buffer that a decoder
  cannot read.
- A `try` counts its handler and finalizer, a `case` clause its test and
  statements, `for`-`in` and `for`-`of` their left-hand side, and none of
  these is written.
- A member expression with a non-computed property writes no record for the
  property. Nor do a pattern assignment target, a `super` or `import`
  callee, a destructuring declarator name, or a getter, setter or method
  without a body write anything for that part.
- An arrow function's parameters, return type and type parameters, `new`'s
  type arguments, the types of `as`, `satisfies` and instantiation
  expressions, the operand of a unary expression, both parts of a `super`
  property, array elements, `using` declarators, an enum's name and members and the
  parts of an interface are counted but not written.
- A function declaration with a body declares 0 children but writes its
  block. Class and invalid expressions write no record at all.

A spread argument's `Spread` marker is not counted either: a `Call`
declares 1 plus the number of arguments however many are spread
(`Layout.CallRecords`). This does not break the counts, because the marker
declares 1 and wraps its argument, so each argument is still one subtree
(`WellFormed.ArgShape`).

## Model

| member | source | states |
|---|---|---|
| Tags.Tag | cli/tools/lint/ast.rs:14-122 | a kind's byte is its declaration ordinal, below 86 |
| Tags.KindOf | cli/tools/lint/ast.rs:14-116 | reading a kind byte names a kind exactly when the byte is below 86 |
| Tags.KindOfTag | cli/tools/lint/ast.rs:14-122 | reading back the byte of any kind gives that kind |
| Tags.TagOfKindOf | cli/tools/lint/ast.rs:14-122 | every byte below 86 is the tag of some kind: the tags have no gap |
| Tags.TagsDistinct | cli/tools/lint/ast.rs:14-122 | two kinds share a tag only if they are the same kind |
| Tags.FlagsByte | cli/tools/lint/ast.rs:124-132 | `Flags::None` is written as 0 |
| Wire.HeaderBytes | cli/tools/lint/ast.rs:174-207 | a record is exactly 14 bytes |
| Wire.HeaderRecord | cli/tools/lint/ast.rs:174-207 | a record reads back with its kind, its flags, and its count if below 127 (0 otherwise); its eight span bytes are 0 |
| Wire.Bytes | cli/tools/lint/ast.rs:174-207 | a run of `push_node` calls writes 14 bytes per call |
| Wire.RecordsOfBytes | cli/tools/lint/ast.rs:174-207 | reading back the bytes of a run of calls gives one record per call, in call order, each with tag, flags 0 and stored count |
| Wire.BytesAppend | cli/tools/lint/ast.rs:174-207 | the buffer only grows: the bytes of two runs of calls are the first run's bytes followed by the second's |
| Emit.Encode | cli/tools/lint/ast.rs:134-172 | a buffer that is produced is a non-empty whole number of 14-byte records |
| Serializer.PushNode | cli/tools/lint/ast.rs:174-207 | appends kind, flags, the 4-byte count field and the 8 span bytes, and changes nothing before them |
| Serializer.PushCount | cli/tools/lint/ast.rs:184-195 | appends the count and three zeros when the count is below 127, and four zeros otherwise |
| Serializer.PushSpan | cli/tools/lint/ast.rs:197-206 | appends eight zero bytes |
| Serializer.PushKind | cli/tools/lint/ast.rs:174-207 | a `push_node` call with `Flags::None` appends the bytes of that one call |
| Serializer.SerializeAstBin | cli/tools/lint/ast.rs:134-172 | returns exactly `Encode(p)`: the `Program` record then each item, or a failure where the walk reaches `with` |
| Serializer.SerializeItems | cli/tools/lint/ast.rs:147-154 | the loop over module items appends each item's calls in order, and fails exactly when some item fails |
| Serializer.SerializeItem | cli/tools/lint/ast.rs:148-153 | a module item is an import/export declaration or a statement |
| Serializer.SerializeModuleDecl | cli/tools/lint/ast.rs:209-293 | each import/export form appends one leaf record |
| Serializer.SerializeStmt | cli/tools/lint/ast.rs:295-563 | each statement appends exactly its `EmitStmt` calls; a `with` statement fails |
| Serializer.SerializeBlock | cli/tools/lint/ast.rs:297-309 | a block appends its record counting its statements, then each statement |
| Serializer.SerializeStmts | cli/tools/lint/ast.rs:306-308 | the loop over statements appends each in order and stops at the first failure |
| Serializer.SerializeIf | cli/tools/lint/ast.rs:368-384 | an `if` appends its record (3 with `else`, 2 without), then the test, the consequent and the alternative |
| Serializer.SerializeSwitch | cli/tools/lint/ast.rs:385-408 | a `switch` appends its record, then one header per case, counting its statements plus one for a test |
| Serializer.SerializeTry | cli/tools/lint/ast.rs:418-436 | a `try` counts its block, handler and finalizer but appends only the block |
| Serializer.SerializeWhile | cli/tools/lint/ast.rs:437-448 | a `while` appends its record (2), then the test and the body |
| Serializer.SerializeDoWhile | cli/tools/lint/ast.rs:449-460 | a `do`-`while` appends its record (2), then the test and then the body |
| Serializer.SerializeFor | cli/tools/lint/ast.rs:461-514 | a `for` appends its record (4), then the initializer, test, update and body |
| Serializer.SerializeOptExpr | cli/tools/lint/ast.rs:489-511 | an absent `for` slot appends an `EmptyExpr` record with count 0 |
| Serializer.SerializeForIn | cli/tools/lint/ast.rs:515-532 | a `for`-`in` declares 3 but appends only the right-hand side and the body |
| Serializer.SerializeForOf | cli/tools/lint/ast.rs:533-550 | a `for`-`of` declares 3 but appends only the right-hand side and the body |
| Serializer.SerializeExprStmt | cli/tools/lint/ast.rs:552-561 | an expression statement appends its record (1), then the expression |
| Serializer.SerializeDecl | cli/tools/lint/ast.rs:565-687 | each declaration form appends its record and the children it visits |
| Serializer.SerializeVarDecl | cli/tools/lint/ast.rs:591-629 | a `var` appends its record counting its declarators, then each declarator |
| Serializer.SerializeDeclarators | cli/tools/lint/ast.rs:601-628 | the loop over declarators appends each in order |
| Serializer.SerializeDeclarator | cli/tools/lint/ast.rs:602-627 | a declarator appends its record (2 with an initializer, 1 without), then the name if it is an identifier or an expression, then the initializer |
| Serializer.SerializeExpr | cli/tools/lint/ast.rs:689-1214 | each expression appends exactly its `EmitExpr` calls |
| Serializer.SerializeLeafExpr | cli/tools/lint/ast.rs:689-1214 | an expression whose children are not visited appends one record, or nothing for a class expression or an invalid expression |
| Serializer.SerializeObject | cli/tools/lint/ast.rs:719-779 | an object literal appends its record counting its members, then each member |
| Serializer.SerializeProps | cli/tools/lint/ast.rs:729-778 | the loop over object members appends each in order |
| Serializer.SerializeProp | cli/tools/lint/ast.rs:730-777 | a spread member appends a `Spread` marker (1) then the expression; `a = v` appends `Assign` (2), an identifier and the value; an accessor or method appends its body if it has one |
| Serializer.SerializeUpdate | cli/tools/lint/ast.rs:799-808 | `++`/`--` appends its record (1), then the operand |
| Serializer.SerializeBin | cli/tools/lint/ast.rs:809-819 | a binary expression appends its record (2), then the left and the right operand |
| Serializer.SerializeAssign | cli/tools/lint/ast.rs:820-853 | an assignment appends its record (2), then an identifier or member target (other targets write nothing), then the value |
| Serializer.SerializeMember | cli/tools/lint/ast.rs:854-871 | a member expression appends its record (2), then the object and then only a computed property |
| Serializer.SerializeCond | cli/tools/lint/ast.rs:886-898 | a conditional appends its record (3), then the test, the consequent and the alternative |
| Serializer.SerializeCall | cli/tools/lint/ast.rs:899-930 | a call appends its record (1 plus the number of arguments), then an expression callee (`super`/`import` write nothing), then the arguments |
| Serializer.SerializeArgs | cli/tools/lint/ast.rs:917-929 | the loop over arguments appends each in order |
| Serializer.SerializeArg | cli/tools/lint/ast.rs:918-928 | a spread argument appends a `Spread` marker (1) before its expression |
| Serializer.SerializeNew | cli/tools/lint/ast.rs:931-965 | `new` appends its record counting the callee, the arguments and the type arguments, then the callee and the arguments |
| Serializer.SerializeNewArgs | cli/tools/lint/ast.rs:950-964 | an absent argument list appends nothing |
| Serializer.SerializeSeq | cli/tools/lint/ast.rs:966-979 | a comma sequence appends its record counting its expressions, then each |
| Serializer.SerializeExprs | cli/tools/lint/ast.rs:976-978 | the loop over a sequence's expressions appends each in order |
| Serializer.SerializeArrow | cli/tools/lint/ast.rs:1010-1035 | an arrow appends its record counting the body, the parameters, the return type and the type parameters, then only the body |
| Serializer.SerializeArrowBody | cli/tools/lint/ast.rs:1027-1034 | an arrow body is a block or an expression |
| Serializer.SerializeYield | cli/tools/lint/ast.rs:1039-1052 | `yield` appends its record (1 with an argument, 0 without), then the argument |
| Serializer.SerializeAwait | cli/tools/lint/ast.rs:1062-1072 | `await` appends its record (1), then the operand |
| Serializer.SerializeParen | cli/tools/lint/ast.rs:1073-1083 | a parenthesized expression appends a `Seq` record (1), then the inner expression |
| Serializer.SerializeTsConstAssertion | cli/tools/lint/ast.rs:1138-1147 | `as const` appends its record (1), then the expression |
| Serializer.SerializeTsNonNull | cli/tools/lint/ast.rs:1148-1157 | `!` appends its record (1), then the expression |
| Serializer.SerializeTsAs | cli/tools/lint/ast.rs:1158-1168 | `as` declares 2 and appends the expression; the type writes nothing |
| Serializer.SerializeTsInstantiation | cli/tools/lint/ast.rs:1169-1180 | an instantiation expression declares 2 but appends only the expression |
| Serializer.SerializeTsSatisfies | cli/tools/lint/ast.rs:1181-1191 | `satisfies` declares 2 and appends the expression; the type writes nothing |
| Serializer.SerializeLit | cli/tools/lint/ast.rs:1216-1268 | each literal form appends one leaf record |
| Serializer.SerializeTsType | cli/tools/lint/ast.rs:1270-1293 | a type annotation appends nothing |
| Layout.ProgramRecords | cli/tools/lint/ast.rs:134-172 | the buffer starts with a `Program` record (tag 1, flags 0) counting the body, the items' records follow in source order, and no later record has tag 1 |
| Layout.RecordsWellTyped | cli/tools/lint/ast.rs:14-207 | the buffer is exactly its records; every record has a kind below 86, flags 0 and a stored count below 127 |
| Layout.IfRecords | cli/tools/lint/ast.rs:368-384 | an `if` record declares 3 exactly when there is an `else` (2 otherwise); then the test, the consequent and the alternative |
| Layout.ForRecords | cli/tools/lint/ast.rs:461-514 | a `for` record always declares 4; the four slots follow in order, and each absent slot is one `EmptyExpr` record with count 0 |
| Layout.ForVarInitRecords | cli/tools/lint/ast.rs:470-474 | a `var` initializer of a `for` is written as a `Var` record counting its declarators |
| Layout.VarRecords | cli/tools/lint/ast.rs:591-600 | a `Var` record counts the declarators, whose records follow |
| Layout.DeclaratorRecords | cli/tools/lint/ast.rs:602-627 | a declarator with an identifier name declares 2 with an initializer and 1 without; an `Ident` record follows, then the initializer |
| Layout.CallRecords | cli/tools/lint/ast.rs:899-930 | a `Call` record declares 1 plus the number of arguments whatever the spreads; a `super`/`import` callee writes nothing; the arguments follow |
| Layout.ArgRecords | cli/tools/lint/ast.rs:917-929 | a spread argument is a `Spread` record with count 1 followed by the argument; a plain argument is the argument alone |
| Layout.ReturnArgumentNotWritten | cli/tools/lint/ast.rs:329-338 | a `return` with an argument declares 1 but writes nothing, so the buffer of such a script does not decode |
| Root.ItemsWithoutProgram | cli/tools/lint/ast.rs:147-154 | the records written for the items of a module contain no `Program` record |
| Root.StmtWithoutProgram | cli/tools/lint/ast.rs:295-563 | no statement, at any depth, writes a `Program` record |
| Root.CasesWithoutProgram | cli/tools/lint/ast.rs:394-407 | the clause headers of a `switch` contain no `Program` record |
| Root.DeclWithoutProgram | cli/tools/lint/ast.rs:565-687 | no declaration writes a `Program` record |
| Root.ExprWithoutProgram | cli/tools/lint/ast.rs:689-1214 | no expression, at any depth, writes a `Program` record |
| Root.PropWithoutProgram | cli/tools/lint/ast.rs:730-777 | no object member writes a `Program` record |
| Decode.DecodeBytes | cli/tools/lint/ast.rs:174-207 | the records of a tree whose counts are all below 127 decode back to that tree and use up the buffer |
| Decode.DecodeFlatten | cli/tools/lint/ast.rs:174-207 | decoding the records of such a tree stops exactly after its last record, whatever follows |
| WellFormed.EncodeDecodes | cli/tools/lint/ast.rs:134-172 | a fully encoded program is encoded without a panic, and decoding its buffer by the counts rebuilds its tree and uses up every record |
| WellFormed.ProgramShape | cli/tools/lint/ast.rs:134-172 | the `Program` record is followed by exactly its items' subtrees |
| WellFormed.ItemsShape | cli/tools/lint/ast.rs:147-154 | the items of a module are written as consecutive complete subtrees |
| WellFormed.ItemShape | cli/tools/lint/ast.rs:148-153 | a module item is one complete subtree |
| WellFormed.ModuleDeclShape | cli/tools/lint/ast.rs:209-293 | each import/export form is one leaf record of its own kind |
| WellFormed.StmtShape | cli/tools/lint/ast.rs:295-563 | a fully encoded statement is written as its tree, every count below 127 |
| WellFormed.BlockShape | cli/tools/lint/ast.rs:297-309 | a block is followed by exactly its statements' subtrees |
| WellFormed.StmtsShape | cli/tools/lint/ast.rs:306-308 | statements are written as consecutive complete subtrees |
| WellFormed.IfShape | cli/tools/lint/ast.rs:368-384 | an `if` is followed by exactly 3 subtrees with an `else` and 2 without |
| WellFormed.SwitchShape | cli/tools/lint/ast.rs:385-408 | a `switch` whose clauses all declare 0 is followed by exactly one clause leaf per clause |
| WellFormed.CasesShape | cli/tools/lint/ast.rs:394-407 | such clauses are written as consecutive `SwitchCase` leaves |
| WellFormed.TryShape | cli/tools/lint/ast.rs:418-436 | a `try` with neither handler nor finalizer declares 1 and is followed by exactly its block's subtree |
| WellFormed.WhileShape | cli/tools/lint/ast.rs:437-448 | a `while` is followed by exactly its test and body subtrees |
| WellFormed.DoWhileShape | cli/tools/lint/ast.rs:449-460 | a `do`-`while` is followed by exactly its test and then its body subtree |
| WellFormed.ForShape | cli/tools/lint/ast.rs:461-514 | a `for` is followed by exactly 4 subtrees, placeholders included |
| WellFormed.ForInitShape | cli/tools/lint/ast.rs:470-487 | a `for` initializer is one subtree: a placeholder, a `Var` or an expression |
| WellFormed.OptExprShape | cli/tools/lint/ast.rs:489-511 | a `for` test or update is one subtree: a placeholder or the expression |
| WellFormed.ExprStmtShape | cli/tools/lint/ast.rs:552-561 | an expression statement is followed by exactly its expression's subtree |
| WellFormed.DeclShape | cli/tools/lint/ast.rs:565-687 | a fully encoded declaration is one complete subtree |
| WellFormed.VarDeclShape | cli/tools/lint/ast.rs:591-629 | a `Var` is followed by exactly its declarators' subtrees |
| WellFormed.DeclaratorsShape | cli/tools/lint/ast.rs:601-628 | declarators are written as consecutive complete subtrees |
| WellFormed.DeclaratorShape | cli/tools/lint/ast.rs:602-627 | a declarator named by an identifier or an expression is followed by exactly 2 subtrees with an initializer and 1 without |
| WellFormed.ExprShape | cli/tools/lint/ast.rs:689-1214 | a fully encoded expression is written as its tree |
| WellFormed.LeafExprShape | cli/tools/lint/ast.rs:689-1214 | an expression whose children are not visited is one leaf record |
| WellFormed.LitShape | cli/tools/lint/ast.rs:1216-1268 | each literal is one leaf record of its own kind |
| WellFormed.ObjectShape | cli/tools/lint/ast.rs:719-779 | an object literal whose members all write one subtree is followed by exactly those subtrees |
| WellFormed.UpdateShape | cli/tools/lint/ast.rs:799-808 | `++`/`--` is followed by exactly its operand's subtree |
| WellFormed.BinShape | cli/tools/lint/ast.rs:809-819 | a binary expression is followed by exactly its two operands' subtrees |
| WellFormed.AssignShape | cli/tools/lint/ast.rs:820-853 | an assignment to an identifier or computed member is followed by exactly 2 subtrees |
| WellFormed.MemberShape | cli/tools/lint/ast.rs:854-871 | a computed member expression is followed by exactly its object's and its property's subtrees |
| WellFormed.CondShape | cli/tools/lint/ast.rs:886-898 | a conditional is followed by exactly its 3 subtrees |
| WellFormed.CallShape | cli/tools/lint/ast.rs:899-930 | a call with an expression callee is followed by exactly 1 plus the number of arguments subtrees, a spread marker holding its argument |
| WellFormed.NewShape | cli/tools/lint/ast.rs:931-965 | a `new` without type arguments is followed by exactly its callee and one subtree per argument, as many as it declares |
| WellFormed.NewArgsShape | cli/tools/lint/ast.rs:950-964 | the arguments of `new`, if any, are written as consecutive complete subtrees |
| WellFormed.SeqShape | cli/tools/lint/ast.rs:966-979 | a comma sequence is followed by exactly its expressions' subtrees |
| WellFormed.ArrowShape | cli/tools/lint/ast.rs:1010-1035 | an arrow without parameters or annotations is followed by exactly its body's subtree |
| WellFormed.ArrowBodyShape | cli/tools/lint/ast.rs:1027-1034 | an arrow body is one subtree |
| WellFormed.YieldShape | cli/tools/lint/ast.rs:1039-1052 | `yield` is followed by exactly its argument's subtree, or by nothing |
| WellFormed.AwaitShape | cli/tools/lint/ast.rs:1062-1072 | `await` is followed by exactly its operand's subtree |
| WellFormed.ParenShape | cli/tools/lint/ast.rs:1073-1083 | a parenthesized expression is a `Seq` record followed by exactly the inner subtree |
| WellFormed.TsConstAssertionShape | cli/tools/lint/ast.rs:1138-1147 | `as const` is followed by exactly its expression's subtree |
| WellFormed.TsNonNullShape | cli/tools/lint/ast.rs:1148-1157 | `!` is followed by exactly its expression's subtree |
| WellFormed.ExprsShape | cli/tools/lint/ast.rs:976-978 | a sequence's expressions are written as consecutive complete subtrees |
| WellFormed.ArgsShape | cli/tools/lint/ast.rs:917-929 | arguments are written as consecutive complete subtrees |
| WellFormed.ArgShape | cli/tools/lint/ast.rs:918-928 | an argument is one subtree; a spread marker holds its argument as its only child |
| WellFormed.PropsShape | cli/tools/lint/ast.rs:729-778 | object members are written as consecutive complete subtrees |
| WellFormed.PropShape | cli/tools/lint/ast.rs:730-777 | a member with a body is one subtree: a spread marker over its expression, an identifier, a value, an `Assign` over an identifier and a value, or a block |

## Left out

- Spans are not modelled. The encoder never writes them; their eight bytes are always 0.
- Counts are unbounded naturals rather than `usize`. The cast `count.try_into().unwrap()` only runs for counts below 127, so it cannot fail.
- The swc/`deno_ast` syntax types and `ParsedSource::program()` are not part of this model. `Syntax` keeps only the fields the encoder reads.
- Re-dispatch through `.clone()`, such as `Stmt::Block(x.clone())`, is modelled as a direct call on the same subtree.
- The `todo!()` panic on `with` is a failure result: `None` in `Emit`, `false` in `Serializer`. The model does not track what a panicking run leaves behind.
- Native stack depth is not modelled; the recursion is over a finite tree.
- The JavaScript decoder is not part of this model. `Decode` is a stand-in used only to state well-formedness.
- Children the encoder counts but never visits are kept only as their number or presence when the encoder never descends into them: enum members, interface `extends` clauses and type parameters, arrow parameters, return types and type parameters, and `new` type arguments. The `try` handler and finalizer and the children of `return`, `labeled` and `throw` are kept as subtrees that are never written.
- The loops over `Array` elements and `using` declarators have empty bodies. They are modelled as writing nothing.
- Counting the `push_node` calls of a whole buffer, or relating spread markers to a total, is not stated; the code keeps no such total.
- `WellFormed.EncodeDecodes` covers only fully encoded programs. These are programs where every visited node's count equals the subtrees written and is below 127. The subset includes calls with an expression callee, `new` without type arguments, a `try` with neither handler nor finalizer, a `switch` whose clauses all declare 0, declarators named by an identifier or an expression, and objects whose members write one subtree each. Every other construct is excluded because the number of children it declares differs from the number it writes (the forms listed at the top).
- The proof splits each `serialize_*` routine into one method per construct, such as `SerializeIf` or `SerializeCall`. The Rust code handles them in one `match`. The order of calls and bytes is the same.
