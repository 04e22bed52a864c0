/**
 * The `MethodCallCollector` visitor over a caller-supplied list. For a
 * method call it first lets the library adapter visit the call's children
 * and only then adds the call; every other node kind is the adapter's plain
 * walk over its children. Each method appends exactly the calls that
 * `CallCollection` describes for its node and keeps what was already in the
 * list in front.
 */
module MethodCallCollector {
  import opened JavaAst
  import opened Collections
  import opened CallCollection

  method VisitExpr(e: Expr, collector: ArrayList<Expr>)
    modifies collector
    ensures collector.elements == old(collector.elements) + CallsExpr(e)
    decreases e
  {
    ghost var before := collector.elements;
    match e
    case VariableDeclarationExpr(vars) =>
      VisitDeclarators(vars, collector);
    case MethodCallExpr(scope, _, args) =>
      // the adapter's visit of the children, then the override's own step
      VisitExprs(args, collector);
      ghost var scopeCalls := if scope.Some? then CallsExpr(scope.value) else [];
      if scope.Some? {
        VisitExpr(scope.value, collector);
      } else {
        AppendEmpty(collector.elements);
      }
      collector.Add(e);
      AppendAssoc3(before, CallsExprs(args), scopeCalls, [e]);
    case LambdaExpr(_, body) =>
      VisitStmt(body, collector);
    case OtherExpr(_, children) =>
      VisitExprs(children, collector);
  }

  method VisitExprs(es: seq<Expr>, collector: ArrayList<Expr>)
    modifies collector
    ensures collector.elements == old(collector.elements) + CallsExprs(es)
    decreases es
  {
    ghost var before := collector.elements;
    for i := 0 to |es|
      invariant collector.elements == before + CallsExprs(es[..i])
    {
      assert es[..i + 1][..i] == es[..i];
      VisitExpr(es[i], collector);
      AppendAssoc(before, CallsExprs(es[..i]), CallsExpr(es[i]));
    }
    assert es[..|es|] == es;
  }

  method VisitDeclarator(d: Declarator, collector: ArrayList<Expr>)
    modifies collector
    ensures collector.elements == old(collector.elements) + CallsDeclarator(d)
    decreases d
  {
    if d.initializer.Some? {
      VisitExpr(d.initializer.value, collector);
    } else {
      AppendEmpty(collector.elements);
    }
  }

  method VisitDeclarators(ds: seq<Declarator>, collector: ArrayList<Expr>)
    modifies collector
    ensures collector.elements == old(collector.elements) + CallsDeclarators(ds)
    decreases ds
  {
    ghost var before := collector.elements;
    for i := 0 to |ds|
      invariant collector.elements == before + CallsDeclarators(ds[..i])
    {
      assert ds[..i + 1][..i] == ds[..i];
      VisitDeclarator(ds[i], collector);
      AppendAssoc(before, CallsDeclarators(ds[..i]), CallsDeclarator(ds[i]));
    }
    assert ds[..|ds|] == ds;
  }

  method VisitStmt(s: Stmt, collector: ArrayList<Expr>)
    modifies collector
    ensures collector.elements == old(collector.elements) + CallsStmt(s)
    decreases s
  {
    ghost var before := collector.elements;
    match s
    case ExpressionStmt(e) =>
      VisitExpr(e, collector);
    case IfStmt(_, _, _) =>
      VisitIf(s, collector);
    case ForeachStmt(v, it, body) =>
      VisitStmt(body, collector);
      VisitExpr(it, collector);
      VisitExpr(v, collector);
      AppendAssoc(before, CallsStmt(body) + CallsExpr(it), CallsExpr(v));
      AppendAssoc(before, CallsStmt(body), CallsExpr(it));
    case ForStmt(_, _, _, _) =>
      VisitFor(s, collector);
    case BlockStmt(ss) =>
      VisitStmts(ss, collector);
    case DoStmt(body, c) =>
      VisitStmt(body, collector);
      VisitExpr(c, collector);
      AppendAssoc(before, CallsStmt(body), CallsExpr(c));
    case WhileStmt(c, body) =>
      VisitStmt(body, collector);
      VisitExpr(c, collector);
      AppendAssoc(before, CallsStmt(body), CallsExpr(c));
    case ReturnStmt(v) =>
      if v.Some? {
        VisitExpr(v.value, collector);
      } else {
        AppendEmpty(before);
      }
    case SwitchEntryStmt(entry) =>
      VisitEntry(entry, collector);
    case SwitchStmt(sel, entries) =>
      VisitEntries(entries, collector);
      VisitExpr(sel, collector);
      AppendAssoc(before, CallsEntries(entries), CallsExpr(sel));
    case SynchronizedStmt(lock, body) =>
      VisitStmt(body, collector);
      VisitExpr(lock, collector);
      AppendAssoc(before, CallsStmt(body), CallsExpr(lock));
    case TryStmt(_, _, _, _) =>
      VisitTry(s, collector);
    case ThrowStmt(x) =>
      VisitExpr(x, collector);
    case LabeledStmt(_, st) =>
      VisitStmt(st, collector);
    case AssertStmt(check, msg) =>
      VisitExpr(check, collector);
      if msg.Some? {
        VisitExpr(msg.value, collector);
        AppendAssoc(before, CallsExpr(check), CallsExpr(msg.value));
      } else {
        AppendEmpty(CallsExpr(check));
      }
    case BreakStmt(_) =>
      AppendEmpty(before);
    case ContinueStmt(_) =>
      AppendEmpty(before);
    case EmptyStmt =>
      AppendEmpty(before);
  }

  method VisitIf(s: Stmt, collector: ArrayList<Expr>)
    requires s.IfStmt?
    modifies collector
    ensures collector.elements == old(collector.elements) + CallsStmt(s)
    decreases s, 0
  {
    ghost var before := collector.elements;
    ghost var elseCalls := if s.elseStmt.Some? then CallsStmt(s.elseStmt.value) else [];
    VisitExpr(s.condition, collector);
    if s.elseStmt.Some? {
      VisitStmt(s.elseStmt.value, collector);
    } else {
      AppendEmpty(collector.elements);
    }
    VisitStmt(s.thenStmt, collector);
    AppendAssoc3(before, CallsExpr(s.condition), elseCalls, CallsStmt(s.thenStmt));
  }

  method VisitFor(s: Stmt, collector: ArrayList<Expr>)
    requires s.ForStmt?
    modifies collector
    ensures collector.elements == old(collector.elements) + CallsStmt(s)
    decreases s, 0
  {
    ghost var before := collector.elements;
    ghost var compareCalls := if s.compare.Some? then CallsExpr(s.compare.value) else [];
    VisitStmt(s.body, collector);
    if s.compare.Some? {
      VisitExpr(s.compare.value, collector);
    } else {
      AppendEmpty(collector.elements);
    }
    VisitExprs(s.initialization, collector);
    VisitExprs(s.update, collector);
    AppendAssoc(before, CallsStmt(s.body) + compareCalls + CallsExprs(s.initialization), CallsExprs(s.update));
    AppendAssoc3(before, CallsStmt(s.body), compareCalls, CallsExprs(s.initialization));
  }

  method VisitTry(s: Stmt, collector: ArrayList<Expr>)
    requires s.TryStmt?
    modifies collector
    ensures collector.elements == old(collector.elements) + CallsStmt(s)
    decreases s, 0
  {
    ghost var before := collector.elements;
    ghost var finallyCalls := if s.finallyBlock.Some? then CallsStmt(s.finallyBlock.value) else [];
    VisitCatches(s.catchClauses, collector);
    if s.finallyBlock.Some? {
      VisitStmt(s.finallyBlock.value, collector);
    } else {
      AppendEmpty(collector.elements);
    }
    VisitExprs(s.resources, collector);
    VisitStmt(s.tryBlock, collector);
    AppendAssoc(before, CallsCatches(s.catchClauses) + finallyCalls + CallsExprs(s.resources), CallsStmt(s.tryBlock));
    AppendAssoc3(before, CallsCatches(s.catchClauses), finallyCalls, CallsExprs(s.resources));
  }

  method VisitStmts(ss: seq<Stmt>, collector: ArrayList<Expr>)
    modifies collector
    ensures collector.elements == old(collector.elements) + CallsStmts(ss)
    decreases ss
  {
    ghost var before := collector.elements;
    for i := 0 to |ss|
      invariant collector.elements == before + CallsStmts(ss[..i])
    {
      assert ss[..i + 1][..i] == ss[..i];
      VisitStmt(ss[i], collector);
      AppendAssoc(before, CallsStmts(ss[..i]), CallsStmt(ss[i]));
    }
    assert ss[..|ss|] == ss;
  }

  method VisitEntry(entry: SwitchEntry, collector: ArrayList<Expr>)
    modifies collector
    ensures collector.elements == old(collector.elements) + CallsEntry(entry)
    decreases entry
  {
    ghost var before := collector.elements;
    ghost var labelCalls := if entry.caseLabel.Some? then CallsExpr(entry.caseLabel.value) else [];
    if entry.caseLabel.Some? {
      VisitExpr(entry.caseLabel.value, collector);
    } else {
      AppendEmpty(collector.elements);
    }
    VisitStmts(entry.statements, collector);
    AppendAssoc(before, labelCalls, CallsStmts(entry.statements));
  }

  method VisitEntries(entries: seq<SwitchEntry>, collector: ArrayList<Expr>)
    modifies collector
    ensures collector.elements == old(collector.elements) + CallsEntries(entries)
    decreases entries
  {
    ghost var before := collector.elements;
    for i := 0 to |entries|
      invariant collector.elements == before + CallsEntries(entries[..i])
    {
      assert entries[..i + 1][..i] == entries[..i];
      VisitEntry(entries[i], collector);
      AppendAssoc(before, CallsEntries(entries[..i]), CallsEntry(entries[i]));
    }
    assert entries[..|entries|] == entries;
  }

  method VisitCatch(c: CatchClause, collector: ArrayList<Expr>)
    modifies collector
    ensures collector.elements == old(collector.elements) + CallsCatch(c)
    decreases c
  {
    VisitStmt(c.body, collector);
  }

  method VisitCatches(catches: seq<CatchClause>, collector: ArrayList<Expr>)
    modifies collector
    ensures collector.elements == old(collector.elements) + CallsCatches(catches)
    decreases catches
  {
    ghost var before := collector.elements;
    for i := 0 to |catches|
      invariant collector.elements == before + CallsCatches(catches[..i])
    {
      assert catches[..i + 1][..i] == catches[..i];
      VisitCatch(catches[i], collector);
      AppendAssoc(before, CallsCatches(catches[..i]), CallsCatch(catches[i]));
    }
    assert catches[..|catches|] == catches;
  }

  /** A method declaration: the calls of its body, if it has one. */
  method VisitMethod(m: MethodDecl, collector: ArrayList<Expr>)
    modifies collector
    ensures collector.elements == old(collector.elements) + MethodCalls(m)
  {
    if m.body.Some? {
      VisitStmts(m.body.value, collector);
    } else {
      AppendEmpty(collector.elements);
    }
  }
}
