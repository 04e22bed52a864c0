# JavaSourceParser, modelled in Dafny

`JavaSourceParser` (in `emprovise/java-source-tools`) answers questions about
one parsed Java compilation unit. This project models and proves its core,
which has four parts.

- **The statement flattener.** `getMethodExpressions` and the two
  `processStatements` overloads walk a method body. They collect, in source
  order, every expression that stands as a statement, plus every `return`
  value. To do this they descend through blocks, both branches of an `if`,
  the bodies of the four loop kinds, switch entries, `synchronized` bodies,
  and the block, catch bodies and finally block of a `try`.
- **The declaration extractor.** `getVariableDeclarations` keeps the
  declarators of the variable-declaration expressions among the collected
  expressions.
- **The call collector.** `getMethodCalls` runs `MethodCallCollector` over a
  method. This visitor lets the library adapter visit a call's children
  first, and only then records the call itself.
- **The public-class lookup.** `getPublicClass` returns the first class or
  interface declared `public`. `getPublicClassName` and `getPublicMethods`
  pass on its name and its methods, or null when there is none.

Modules:

- `JavaAst`: the syntax tree, as mutually recursive datatypes (expressions,
  statements, declarators, switch entries, catch clauses, methods, type
  declarations, compilation units).
- `Collections`: the `ArrayList` accumulator. It is a class whose `seq`
  field only ever grows by `Add` and `AddAll`.
- `StatementFlattener` and `DeclarationExtractor`: what the flattener and
  the extractor return, as functions. Beside them is an independent
  description: the pre-order list of statements the traversal visits, each
  replaced by what it contributes.
- `CallCollection`: what the collector records, as functions. Beside them
  is a reference list: every expression node in pre-order, and the call
  nodes among them.
- `MethodCallCollector`: the visitor, as methods that append to a
  caller-supplied list.
- `TypeSelection`: the choice of the public class.
- `JavaSourceParser`: the query methods. The original object holds one
  compilation unit, set by its constructor and never changed afterwards, so
  here each query takes that unit (or a method) as a parameter.

The accumulator loops of the source are `method`s that append to an
`ArrayList`. Each is proved to leave exactly the old contents followed by
the value of its specification function. The properties are proved about
those functions.

## Model

| member | source | states |
|---|---|---|
| JavaSourceParser.GetMethodExpressions | src/main/java/com/emprovise/tools/java/JavaSourceParser.java:57-69 | returns the method's flattened expressions; none for a method without a body; otherwise the pre-order emissions of the statements the traversal visits |
| JavaSourceParser.ProcessStatements | src/main/java/com/emprovise/tools/java/JavaSourceParser.java:84-88 | appends the flattenings of the statements in order, keeping the list's old contents in front |
| JavaSourceParser.ProcessStatement | src/main/java/com/emprovise/tools/java/JavaSourceParser.java:90-150 | appends exactly the statement's flattening (expression, both if-branches, loop bodies, return value, entries, try parts; nothing for other kinds) after the old contents |
| JavaSourceParser.ProcessSwitch | src/main/java/com/emprovise/tools/java/JavaSourceParser.java:125-130 | appends the flattening of every switch entry, in order |
| JavaSourceParser.ProcessSwitchEntry | src/main/java/com/emprovise/tools/java/JavaSourceParser.java:122-124 | appends the flattening of the entry's statements |
| JavaSourceParser.ProcessTry | src/main/java/com/emprovise/tools/java/JavaSourceParser.java:134-145 | appends the try block's flattening, then each catch body's, then the finally block's if present |
| JavaSourceParser.ProcessCatchBody | src/main/java/com/emprovise/tools/java/JavaSourceParser.java:139-141 | appends the flattening of one catch body |
| JavaSourceParser.GetVariableDeclarations | src/main/java/com/emprovise/tools/java/JavaSourceParser.java:71-82 | returns the declarators of the variable declarations among the method's expressions, in order; a declarator is returned exactly when one of those expressions declares it |
| JavaSourceParser.GetMethodCalls | src/main/java/com/emprovise/tools/java/JavaSourceParser.java:174-178 | returns the collector's list, which holds every call node of the method body exactly as often as it occurs |
| JavaSourceParser.GetPublicClass | src/main/java/com/emprovise/tools/java/JavaSourceParser.java:180-192 | returns the first class or interface with the public modifier; none exactly when no declaration is one; wherever the first public class sits, it is the one returned |
| JavaSourceParser.GetPublicClassName | src/main/java/com/emprovise/tools/java/JavaSourceParser.java:39-42 | none exactly when there is no public class; otherwise the name of the first public class, whichever position holds it |
| JavaSourceParser.GetPublicMethods | src/main/java/com/emprovise/tools/java/JavaSourceParser.java:44-47 | none exactly when there is no public class; otherwise the methods of the first public class, whichever position holds it |
| StatementFlattener.FlattenIsPreOrder | src/main/java/com/emprovise/tools/java/JavaSourceParser.java:90-150 | the flattening equals the independent description: the statements visited in pre-order, each replaced by its own expression or return value |
| StatementFlattener.FlattenAllIsPreOrder | src/main/java/com/emprovise/tools/java/JavaSourceParser.java:84-88 | the same for a statement list |
| StatementFlattener.FlattenIfIsPreOrder | src/main/java/com/emprovise/tools/java/JavaSourceParser.java:95-101 | the same for an if statement: then-branch first, then else-branch |
| StatementFlattener.FlattenTryIsPreOrder | src/main/java/com/emprovise/tools/java/JavaSourceParser.java:134-145 | the same for a try statement: block, catch bodies, finally |
| StatementFlattener.FlattenEntryIsPreOrder | src/main/java/com/emprovise/tools/java/JavaSourceParser.java:122-124 | the same for one switch entry |
| StatementFlattener.FlattenEntriesIsPreOrder | src/main/java/com/emprovise/tools/java/JavaSourceParser.java:125-130 | the same for a switch's entries |
| StatementFlattener.FlattenCatchIsPreOrder | src/main/java/com/emprovise/tools/java/JavaSourceParser.java:139-141 | the same for one catch body |
| StatementFlattener.FlattenCatchesIsPreOrder | src/main/java/com/emprovise/tools/java/JavaSourceParser.java:138-141 | the same for a list of catch clauses |
| StatementFlattener.PreOrderThroughBody | src/main/java/com/emprovise/tools/java/JavaSourceParser.java:102-116 | a statement that only descends into its body (loops, synchronized) contributes exactly its body's pre-order emissions |
| StatementFlattener.EmitAllMembers | src/main/java/com/emprovise/tools/java/JavaSourceParser.java:90-150 | an expression is emitted by a statement list exactly when one of its statements emits it |
| StatementFlattener.EmitAllConcat | src/main/java/com/emprovise/tools/java/JavaSourceParser.java:84-88 | the emissions of two lists joined are the emissions of each, in order |
| StatementFlattener.FlattenMembers | src/main/java/com/emprovise/tools/java/JavaSourceParser.java:90-150 | both directions: an expression is collected exactly when some visited statement is an expression statement of it or a return of it |
| StatementFlattener.MethodExpressionsIsPreOrder | src/main/java/com/emprovise/tools/java/JavaSourceParser.java:57-69 | a method's expressions: none without a body, otherwise the pre-order emissions of its statements |
| StatementFlattener.IgnoredKindsContributeNothing | src/main/java/com/emprovise/tools/java/JavaSourceParser.java:147-149 | throw, labeled, assert, break, continue and empty statements contribute nothing and are not descended into |
| StatementFlattener.IfElseExample | src/main/java/com/emprovise/tools/java/JavaSourceParser.java:95-101 | an if with a block in each branch yields the then-branch's expression, then the else-branch's |
| StatementFlattener.SingletonFlattenAll | src/main/java/com/emprovise/tools/java/JavaSourceParser.java:84-88 | a one-statement list flattens as that statement |
| DeclarationExtractor.DeclaratorsConcat | src/main/java/com/emprovise/tools/java/JavaSourceParser.java:75-80 | the declarators of two expression lists joined are those of each, in order |
| DeclarationExtractor.DeclaratorsMembers | src/main/java/com/emprovise/tools/java/JavaSourceParser.java:75-80 | both directions: a declarator is kept exactly when some variable-declaration expression of the list holds it |
| DeclarationExtractor.MethodVariablesMembers | src/main/java/com/emprovise/tools/java/JavaSourceParser.java:71-82 | the same, for a method's variables and its flattened expressions |
| DeclarationExtractor.DeclaratorsCount | src/main/java/com/emprovise/tools/java/JavaSourceParser.java:75-80 | the number of declarators kept is the sum of the sizes of the declarations' lists |
| DeclarationExtractor.TwoDeclaratorsExample | src/main/java/com/emprovise/tools/java/JavaSourceParser.java:71-82 | a body `int a, b; foo();` yields exactly the declarators `a`, `b` |
| MethodCallCollector.VisitExpr | src/main/java/com/emprovise/tools/java/JavaSourceParser.java:205-218 | appends the expression's calls after the old contents; for a call, its arguments' and scope's calls come first, then the call |
| MethodCallCollector.VisitExprs | src/main/java/com/emprovise/tools/java/JavaSourceParser.java:205-218 | appends the calls of each expression of a list, in order |
| MethodCallCollector.VisitDeclarator | src/main/java/com/emprovise/tools/java/JavaSourceParser.java:205-218 | appends the calls of a declarator's initializer, nothing without one |
| MethodCallCollector.VisitDeclarators | src/main/java/com/emprovise/tools/java/JavaSourceParser.java:205-218 | appends the calls of each declarator, in order |
| MethodCallCollector.VisitStmt | src/main/java/com/emprovise/tools/java/JavaSourceParser.java:205-218 | appends exactly the statement's calls, through every statement kind, after the old contents |
| MethodCallCollector.VisitIf | src/main/java/com/emprovise/tools/java/JavaSourceParser.java:205-218 | appends the calls of the condition, the else-branch if present, then the then-branch |
| MethodCallCollector.VisitFor | src/main/java/com/emprovise/tools/java/JavaSourceParser.java:205-218 | appends the calls of the body, the compare if present, the initializers, then the updates |
| MethodCallCollector.VisitTry | src/main/java/com/emprovise/tools/java/JavaSourceParser.java:205-218 | appends the calls of the catch clauses, the finally block if present, the resources, then the try block |
| MethodCallCollector.VisitStmts | src/main/java/com/emprovise/tools/java/JavaSourceParser.java:205-218 | appends the calls of each statement of a list, in order |
| MethodCallCollector.VisitEntry | src/main/java/com/emprovise/tools/java/JavaSourceParser.java:205-218 | appends the calls of an entry's label if present, then those of its statements |
| MethodCallCollector.VisitEntries | src/main/java/com/emprovise/tools/java/JavaSourceParser.java:205-218 | appends the calls of each switch entry, in order |
| MethodCallCollector.VisitCatch | src/main/java/com/emprovise/tools/java/JavaSourceParser.java:205-218 | appends the calls of a catch body |
| MethodCallCollector.VisitCatches | src/main/java/com/emprovise/tools/java/JavaSourceParser.java:205-218 | appends the calls of each catch clause, in order |
| MethodCallCollector.VisitMethod | src/main/java/com/emprovise/tools/java/JavaSourceParser.java:174-178 | appends the calls of the method body; nothing for a method without a body |
| CallCollection.MethodCalls | src/main/java/com/emprovise/tools/java/JavaSourceParser.java:174-178 | only method calls are collected; none for a method without a body |
| CallCollection.CallsExprPermutation | src/main/java/com/emprovise/tools/java/JavaSourceParser.java:205-218 | the calls collected from an expression are its call nodes, each exactly as often as it occurs |
| CallCollection.CallsCallPermutation | src/main/java/com/emprovise/tools/java/JavaSourceParser.java:216-217 | the same for a method call: its arguments' calls, its scope's calls and the call itself |
| CallCollection.CallsExprsPermutation | src/main/java/com/emprovise/tools/java/JavaSourceParser.java:205-218 | the same for an expression list |
| CallCollection.CallsDeclaratorPermutation | src/main/java/com/emprovise/tools/java/JavaSourceParser.java:205-218 | the same for a declarator |
| CallCollection.CallsDeclaratorsPermutation | src/main/java/com/emprovise/tools/java/JavaSourceParser.java:205-218 | the same for a declarator list |
| CallCollection.CallsStmtPermutation | src/main/java/com/emprovise/tools/java/JavaSourceParser.java:205-218 | the same for any statement |
| CallCollection.CallsIfPermutation | src/main/java/com/emprovise/tools/java/JavaSourceParser.java:205-218 | the same for an if statement |
| CallCollection.CallsForeachPermutation | src/main/java/com/emprovise/tools/java/JavaSourceParser.java:205-218 | the same for a foreach loop |
| CallCollection.CallsForPermutation | src/main/java/com/emprovise/tools/java/JavaSourceParser.java:205-218 | the same for a for loop |
| CallCollection.CallsTryPermutation | src/main/java/com/emprovise/tools/java/JavaSourceParser.java:205-218 | the same for a try statement |
| CallCollection.FinallyPermutation | src/main/java/com/emprovise/tools/java/JavaSourceParser.java:205-218 | the same for a try statement's optional finally block |
| CallCollection.CallsAssertPermutation | src/main/java/com/emprovise/tools/java/JavaSourceParser.java:205-218 | the same for an assert statement |
| CallCollection.CallsStmtsPermutation | src/main/java/com/emprovise/tools/java/JavaSourceParser.java:205-218 | the same for a statement list |
| CallCollection.CallsEntryPermutation | src/main/java/com/emprovise/tools/java/JavaSourceParser.java:205-218 | the same for a switch entry |
| CallCollection.CallsEntriesPermutation | src/main/java/com/emprovise/tools/java/JavaSourceParser.java:205-218 | the same for a switch's entries |
| CallCollection.CallsCatchPermutation | src/main/java/com/emprovise/tools/java/JavaSourceParser.java:205-218 | the same for a catch clause |
| CallCollection.CallsCatchesPermutation | src/main/java/com/emprovise/tools/java/JavaSourceParser.java:205-218 | the same for a list of catch clauses |
| CallCollection.MethodCallsPermutation | src/main/java/com/emprovise/tools/java/JavaSourceParser.java:174-178 | the calls collected from a method are its call nodes, each exactly once per occurrence, so their number is the number of call nodes |
| CallCollection.CallNodesConcat | src/main/java/com/emprovise/tools/java/JavaSourceParser.java:205-218 | the call nodes of two node lists joined are those of each, in order |
| CallCollection.PostOrderedConcat | src/main/java/com/emprovise/tools/java/JavaSourceParser.java:205-218 | joining two post-ordered call lists gives a post-ordered list |
| CallCollection.PostOrderedCall | src/main/java/com/emprovise/tools/java/JavaSourceParser.java:216-217 | adding a call after the post-ordered calls found below it keeps the list post-ordered |
| CallCollection.CallsExprPostOrdered | src/main/java/com/emprovise/tools/java/JavaSourceParser.java:205-218 | in an expression's collected calls, each call comes right after the block of calls found below it |
| CallCollection.CallsExprsPostOrdered | src/main/java/com/emprovise/tools/java/JavaSourceParser.java:205-218 | the same for an expression list |
| CallCollection.CallsDeclaratorsPostOrdered | src/main/java/com/emprovise/tools/java/JavaSourceParser.java:205-218 | the same for a declarator list |
| CallCollection.CallsStmtPostOrdered | src/main/java/com/emprovise/tools/java/JavaSourceParser.java:205-218 | the same for any statement |
| CallCollection.IfPostOrdered | src/main/java/com/emprovise/tools/java/JavaSourceParser.java:205-218 | the same for an if statement |
| CallCollection.ForeachPostOrdered | src/main/java/com/emprovise/tools/java/JavaSourceParser.java:205-218 | the same for a foreach loop |
| CallCollection.ForPostOrdered | src/main/java/com/emprovise/tools/java/JavaSourceParser.java:205-218 | the same for a for loop |
| CallCollection.LoopPostOrdered | src/main/java/com/emprovise/tools/java/JavaSourceParser.java:205-218 | the same for do and while loops |
| CallCollection.SwitchPostOrdered | src/main/java/com/emprovise/tools/java/JavaSourceParser.java:205-218 | the same for a switch statement |
| CallCollection.SynchronizedPostOrdered | src/main/java/com/emprovise/tools/java/JavaSourceParser.java:205-218 | the same for a synchronized statement |
| CallCollection.TryPostOrdered | src/main/java/com/emprovise/tools/java/JavaSourceParser.java:205-218 | the same for a try statement |
| CallCollection.AssertPostOrdered | src/main/java/com/emprovise/tools/java/JavaSourceParser.java:205-218 | the same for an assert statement |
| CallCollection.OptExprPostOrdered | src/main/java/com/emprovise/tools/java/JavaSourceParser.java:205-218 | the same for an optional expression |
| CallCollection.OptStmtPostOrdered | src/main/java/com/emprovise/tools/java/JavaSourceParser.java:205-218 | the same for an optional statement |
| CallCollection.CallsStmtsPostOrdered | src/main/java/com/emprovise/tools/java/JavaSourceParser.java:205-218 | the same for a statement list |
| CallCollection.CallsEntryPostOrdered | src/main/java/com/emprovise/tools/java/JavaSourceParser.java:205-218 | the same for a switch entry |
| CallCollection.CallsEntriesPostOrdered | src/main/java/com/emprovise/tools/java/JavaSourceParser.java:205-218 | the same for a switch's entries |
| CallCollection.CallsCatchPostOrdered | src/main/java/com/emprovise/tools/java/JavaSourceParser.java:205-218 | the same for a catch clause |
| CallCollection.CallsCatchesPostOrdered | src/main/java/com/emprovise/tools/java/JavaSourceParser.java:205-218 | the same for a list of catch clauses |
| CallCollection.MethodCallsPostOrdered | src/main/java/com/emprovise/tools/java/JavaSourceParser.java:216-217 | every collected call is a method call, is the last of the block of calls of its own subtree, and that block sits immediately before it |
| CallCollection.CallsExprsConcat | src/main/java/com/emprovise/tools/java/JavaSourceParser.java:205-218 | the calls of two expression lists joined are those of each, in order |
| CallCollection.FlattenedCallsCollected | src/main/java/com/emprovise/tools/java/JavaSourceParser.java:90-150 | every call inside a statement's flattened expressions is among the calls collected from the statement, counted with multiplicity |
| CallCollection.FlattenedIfCallsCollected | src/main/java/com/emprovise/tools/java/JavaSourceParser.java:95-101 | the same for an if statement |
| CallCollection.FlattenedForeachCallsCollected | src/main/java/com/emprovise/tools/java/JavaSourceParser.java:102-104 | the same for a foreach loop |
| CallCollection.FlattenedForCallsCollected | src/main/java/com/emprovise/tools/java/JavaSourceParser.java:105-107 | the same for a for loop |
| CallCollection.FlattenedLoopCallsCollected | src/main/java/com/emprovise/tools/java/JavaSourceParser.java:111-116 | the same for do and while loops |
| CallCollection.FlattenedSynchronizedCallsCollected | src/main/java/com/emprovise/tools/java/JavaSourceParser.java:131-133 | the same for a synchronized statement |
| CallCollection.FlattenedSwitchCallsCollected | src/main/java/com/emprovise/tools/java/JavaSourceParser.java:125-130 | the same for a switch statement |
| CallCollection.FlattenedReturnCallsCollected | src/main/java/com/emprovise/tools/java/JavaSourceParser.java:117-121 | the same for a return statement |
| CallCollection.FlattenedTryCallsCollected | src/main/java/com/emprovise/tools/java/JavaSourceParser.java:134-145 | the same for a try statement |
| CallCollection.FinallyCallsCollected | src/main/java/com/emprovise/tools/java/JavaSourceParser.java:143-145 | the same for a try statement's optional finally block |
| CallCollection.IgnoredCallsCollected | src/main/java/com/emprovise/tools/java/JavaSourceParser.java:147-149 | the same for a statement kind the flattener ignores |
| CallCollection.BodyCallsCollected | src/main/java/com/emprovise/tools/java/JavaSourceParser.java:102-107 | the same for a statement that flattens as its body and whose calls begin with its body's |
| CallCollection.FlattenAllCallsCollected | src/main/java/com/emprovise/tools/java/JavaSourceParser.java:84-88 | the same for a statement list |
| CallCollection.FlattenEntryCallsCollected | src/main/java/com/emprovise/tools/java/JavaSourceParser.java:122-124 | the same for a switch entry |
| CallCollection.FlattenEntriesCallsCollected | src/main/java/com/emprovise/tools/java/JavaSourceParser.java:125-130 | the same for a switch's entries |
| CallCollection.FlattenCatchCallsCollected | src/main/java/com/emprovise/tools/java/JavaSourceParser.java:139-141 | the same for a catch body |
| CallCollection.FlattenCatchesCallsCollected | src/main/java/com/emprovise/tools/java/JavaSourceParser.java:138-141 | the same for a list of catch clauses |
| CallCollection.MethodExpressionCallsCollected | src/main/java/com/emprovise/tools/java/JavaSourceParser.java:174-178 | every call inside a method's flattened expressions is among the method's collected calls, counted with multiplicity |
| CallCollection.NestedCallsExample | src/main/java/com/emprovise/tools/java/JavaSourceParser.java:216-217 | `f(g(), h());` yields three calls: `g()`, `h()`, then `f(...)` |
| CallCollection.LabeledStatementExample | src/main/java/com/emprovise/tools/java/JavaSourceParser.java:147-149 | `l: foo();` flattens to nothing, yet its call `foo()` is still collected |
| TypeSelection.PublicClassIsFirst | src/main/java/com/emprovise/tools/java/JavaSourceParser.java:180-192 | the selected class is the first public class or interface; there is none exactly when no declaration is one |
| TypeSelection.FirstPublicAtUnique | src/main/java/com/emprovise/tools/java/JavaSourceParser.java:180-192 | at most one position holds the first public class |
| TypeSelection.PublicClassAtFirst | src/main/java/com/emprovise/tools/java/JavaSourceParser.java:180-192 | whichever position holds the first public class, that class is the one selected |

## Left out

- The constructor's file reading and parsing (`JavaSourceParser.java:30-33`). This is I/O and a call into the parser library. The model starts from an already parsed `CompilationUnit`, passed to each query.
- `getPackageName` (`JavaSourceParser.java:35-37`): it only reads the package name, and fails when the unit has no package declaration. `CompilationUnit` carries the package name, but no query of the model reads it.
- `getAllStatements` and `getAllExpressions` (`JavaSourceParser.java:49-55`): each is a single call to the library's `findAll`, and that code is not part of this model.
- `processExpression` (`JavaSourceParser.java:152-172`): it is private and never called, and it only prints.
- `MethodVisitor` and `AssignmentExprCollector` (`JavaSourceParser.java:197-203`, `221-228`): no query of the class uses them.
- The `System.out.println` diagnostics in `MethodCallCollector.visit` (`JavaSourceParser.java:209-214`): output only, with no effect on the result.
- `JavaCodeBuilder.java` is not part of this model.
- Node identity. Java compares nodes by reference; the model compares tree values. So "each call is collected exactly once" is proved as equality of multisets: every call node of a method is collected as often as it occurs. Two equal subtrees at different places count as two occurrences of the same value.
- The visiting order among a node's children. The library's `VoidVisitorAdapter` is not part of this model. `CallCollection` assumes the adapter's alphabetical order of property names: arguments before scope, condition before else-branch before then-branch, body before compare, initializers and updates, and so on. An `OtherExpr` holds its children in that visiting order too, not in source order: `c ? a() : b()` collects `b()` before `a()`, and `xs[i()]` visits the index before the array. The permutation and post-order properties hold whatever the sibling order is. The exact order of calls from different siblings is assumed, not derived.
- Anonymous class bodies and local class declarations. The adapter walks into the body of `new Runnable() { public void run() { foo(); } }` and into the members of a class declared inside a method, so the source collects `foo()` there. `JavaAst` cannot express either construct. `MethodCalls` therefore misses every call inside such a body, and `MethodCallsPermutation` covers only trees without them. The flattener is unaffected, because it never looks inside expressions and ignores local class statements.
- Annotations, type arguments and parameter lists are not modelled. Java does not allow method calls in them, so `VisitMethod` visits only the method body.
- Labeled statements. The code ignores a labeled statement, together with the statement it labels, just as it ignores `throw`, `break`, `continue` and `assert`. So the expressions of `l: for (...) { foo(); }` are never collected, unlike those of the same loop without a label. The model follows the code (`IgnoredKindsContributeNothing`, `LabeledStatementExample`).
- Repeated expressions. Java compares expression nodes by reference, and no node is collected twice because each visited statement contributes only its own expression. This is not proved: the model compares trees by value, so a block `{ x; x; }` with two equal statements flattens to `[x, x]`.
