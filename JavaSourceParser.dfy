/**
 * The source query facade. The original object holds one parsed
 * compilation unit, set once when it is constructed and never changed, so
 * here each query takes that unit (or the method it was asked about) as a
 * parameter. The traversals append to a fresh `ArrayList` exactly as the
 * original does, and each is proved to return what the specification
 * functions of `StatementFlattener`, `DeclarationExtractor`,
 * `CallCollection` and `TypeSelection` describe.
 */
module JavaSourceParser {
  import opened JavaAst
  import opened Collections
  import opened StatementFlattener
  import opened DeclarationExtractor
  import opened CallCollection
  import opened TypeSelection
  import MethodCallCollector

  /** The flattened expressions of a method's body; empty for a method without a body. */
  method GetMethodExpressions(m: MethodDecl) returns (expressions: seq<Expr>)
    ensures expressions == MethodExpressions(m)
    ensures m.body.None? ==> expressions == []
    ensures m.body.Some? ==> expressions == EmitAll(ReachedAll(m.body.value))
  {
    var collector := new ArrayList<Expr>();
    if m.body.Some? {
      var statements := m.body.value;
      for i := 0 to |statements|
        invariant collector.elements == FlattenAll(statements[..i])
      {
        assert statements[..i + 1][..i] == statements[..i];
        ProcessStatement(statements[i], collector);
      }
      assert statements[..|statements|] == statements;
    }
    expressions := collector.elements;
    MethodExpressionsIsPreOrder(m);
  }

  /** The declarators of the variable declarations among a method's flattened expressions, in order. */
  method GetVariableDeclarations(m: MethodDecl) returns (variables: seq<Declarator>)
    ensures variables == MethodVariables(m)
    ensures forall d :: d in variables <==>
      exists i :: 0 <= i < |MethodExpressions(m)| && MethodExpressions(m)[i].VariableDeclarationExpr?
        && d in MethodExpressions(m)[i].variables
  {
    var list := new ArrayList<Declarator>();
    var expressions := GetMethodExpressions(m);
    for i := 0 to |expressions|
      invariant list.elements == Declarators(expressions[..i])
    {
      assert expressions[..i + 1][..i] == expressions[..i];
      var expression := expressions[i];
      if expression.VariableDeclarationExpr? {
        list.AddAll(expression.variables);
      } else {
        AppendEmpty(list.elements);
      }
    }
    assert expressions[..|expressions|] == expressions;
    variables := list.elements;
    MethodVariablesMembers(m);
  }

  /** The overload over a statement list: each statement in turn. */
  method ProcessStatements(statements: seq<Stmt>, collector: ArrayList<Expr>)
    modifies collector
    ensures collector.elements == old(collector.elements) + FlattenAll(statements)
    decreases statements
  {
    ghost var before := collector.elements;
    for i := 0 to |statements|
      invariant collector.elements == before + FlattenAll(statements[..i])
    {
      assert statements[..i + 1][..i] == statements[..i];
      ProcessStatement(statements[i], collector);
      AppendAssoc(before, FlattenAll(statements[..i]), Flatten(statements[i]));
    }
    assert statements[..|statements|] == statements;
  }

  /**
   * The overload over one statement: appends its flattening and nothing
   * else, so what the list held before stays a prefix.
   */
  method ProcessStatement(statement: Stmt, collector: ArrayList<Expr>)
    modifies collector
    ensures collector.elements == old(collector.elements) + Flatten(statement)
    decreases statement
  {
    ghost var before := collector.elements;
    match statement
    case ExpressionStmt(expression) =>
      collector.Add(expression);
    case IfStmt(_, thenStmt, elseStmt) =>
      ProcessStatement(thenStmt, collector);
      if elseStmt.Some? {
        ProcessStatement(elseStmt.value, collector);
        AppendAssoc(before, Flatten(thenStmt), Flatten(elseStmt.value));
      } else {
        AppendEmpty(Flatten(thenStmt));
      }
    case ForeachStmt(_, _, body) =>
      ProcessStatement(body, collector);
    case ForStmt(_, _, _, body) =>
      ProcessStatement(body, collector);
    case BlockStmt(statements) =>
      ProcessStatements(statements, collector);
    case DoStmt(body, _) =>
      ProcessStatement(body, collector);
    case WhileStmt(_, body) =>
      ProcessStatement(body, collector);
    case ReturnStmt(value) =>
      if value.Some? {
        collector.Add(value.value);
      } else {
        AppendEmpty(before);
      }
    case SwitchEntryStmt(entry) =>
      ProcessSwitchEntry(entry, collector);
    case SwitchStmt(_, _) =>
      ProcessSwitch(statement, collector);
    case SynchronizedStmt(_, body) =>
      ProcessStatement(body, collector);
    case TryStmt(_, _, _, _) =>
      ProcessTry(statement, collector);
    case _ =>
      AppendEmpty(before);
  }

  /** The switch branch of the statement overload: each entry in turn. */
  method ProcessSwitch(statement: Stmt, collector: ArrayList<Expr>)
    requires statement.SwitchStmt?
    modifies collector
    ensures collector.elements == old(collector.elements) + Flatten(statement)
    decreases statement, 0
  {
    ghost var before := collector.elements;
    var entries := statement.entries;
    for i := 0 to |entries|
      invariant collector.elements == before + FlattenEntries(entries[..i])
    {
      assert entries[..i + 1][..i] == entries[..i];
      ProcessSwitchEntry(entries[i], collector);
      AppendAssoc(before, FlattenEntries(entries[..i]), FlattenEntry(entries[i]));
    }
    assert entries[..|entries|] == entries;
  }

  /** The try branch of the statement overload: the block, each catch body, then the finally block. */
  method ProcessTry(statement: Stmt, collector: ArrayList<Expr>)
    requires statement.TryStmt?
    modifies collector
    ensures collector.elements == old(collector.elements) + Flatten(statement)
    decreases statement, 0
  {
    ghost var before := collector.elements;
    var tryBlock, catchClauses, finallyBlock := statement.tryBlock, statement.catchClauses, statement.finallyBlock;
    ProcessStatement(tryBlock, collector);
    ghost var afterTry := collector.elements;
    for i := 0 to |catchClauses|
      invariant collector.elements == afterTry + FlattenCatches(catchClauses[..i])
    {
      assert catchClauses[..i + 1][..i] == catchClauses[..i];
      ProcessCatchBody(catchClauses[i], collector);
      AppendAssoc(afterTry, FlattenCatches(catchClauses[..i]), FlattenCatch(catchClauses[i]));
    }
    assert catchClauses[..|catchClauses|] == catchClauses;
    ghost var finFlat := if finallyBlock.Some? then Flatten(finallyBlock.value) else [];
    if finallyBlock.Some? {
      ProcessStatement(finallyBlock.value, collector);
    } else {
      AppendEmpty(collector.elements);
    }
    assert collector.elements == before + Flatten(tryBlock) + FlattenCatches(catchClauses) + finFlat;
    AppendAssoc3(before, Flatten(tryBlock), FlattenCatches(catchClauses), finFlat);
  }

  /** The switch-entry branch of the statement overload: the entry's statements. */
  method ProcessSwitchEntry(entry: SwitchEntry, collector: ArrayList<Expr>)
    modifies collector
    ensures collector.elements == old(collector.elements) + FlattenEntry(entry)
    decreases entry
  {
    ProcessStatements(entry.statements, collector);
  }

  /** One catch clause of the try branch: its body. */
  method ProcessCatchBody(catchClause: CatchClause, collector: ArrayList<Expr>)
    modifies collector
    ensures collector.elements == old(collector.elements) + FlattenCatch(catchClause)
    decreases catchClause
  {
    ProcessStatement(catchClause.body, collector);
  }

  /** Every method call of a method, each after the calls nested in it. */
  method GetMethodCalls(m: MethodDecl) returns (calls: seq<Expr>)
    ensures calls == MethodCalls(m)
    ensures multiset(calls) == multiset(CallNodes(MethodExprNodes(m)))
  {
    var exprList := new ArrayList<Expr>();
    MethodCallCollector.VisitMethod(m, exprList);
    calls := exprList.elements;
    MethodCallsPermutation(m);
  }

  /** The loop with early return: the first public class or interface, if any. */
  method GetPublicClass(unit: CompilationUnit) returns (publicClass: Option<ClassDecl>)
    ensures publicClass == PublicClass(unit.types)
    ensures publicClass.None? <==> forall i :: 0 <= i < |unit.types| ==> !IsPublicClass(unit.types[i])
    ensures forall i :: FirstPublicAt(unit.types, i) ==> publicClass == Some(unit.types[i].decl)
  {
    var types := unit.types;
    PublicClassIsFirst(types);
    PublicClassAtFirst(types);
    for i := 0 to |types|
      invariant PublicClass(types) == PublicClass(types[i..])
    {
      assert types[i..][1..] == types[i + 1..];
      if types[i].ClassOrInterfaceDeclaration? {
        var classDec := types[i].decl;
        if Public in classDec.modifiers {
          return Some(classDec);
        }
      }
    }
    return None;
  }

  /** The public class's name, or none (the original's null) when there is no public class. */
  function GetPublicClassName(unit: CompilationUnit): (name: Option<string>)
    ensures name.None? <==> forall i :: 0 <= i < |unit.types| ==> !IsPublicClass(unit.types[i])
    ensures name.Some? ==> exists i :: FirstPublicAt(unit.types, i) && unit.types[i].decl.name == name.value
    ensures forall i :: FirstPublicAt(unit.types, i) ==> name == Some(unit.types[i].decl.name)
  {
    PublicClassIsFirst(unit.types);
    PublicClassAtFirst(unit.types);
    match PublicClass(unit.types)
    case Some(publicClass) => Some(publicClass.name)
    case None => None
  }

  /** The public class's methods, or none (the original's null) when there is no public class. */
  function GetPublicMethods(unit: CompilationUnit): (methods: Option<seq<MethodDecl>>)
    ensures methods.None? <==> forall i :: 0 <= i < |unit.types| ==> !IsPublicClass(unit.types[i])
    ensures methods.Some? ==> exists i :: FirstPublicAt(unit.types, i) && unit.types[i].decl.methods == methods.value
    ensures forall i :: FirstPublicAt(unit.types, i) ==> methods == Some(unit.types[i].decl.methods)
  {
    PublicClassIsFirst(unit.types);
    PublicClassAtFirst(unit.types);
    match PublicClass(unit.types)
    case Some(publicClass) => Some(publicClass.methods)
    case None => None
  }
}
