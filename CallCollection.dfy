/**
 * What `MethodCallCollector` collects, as functions: every method-call
 * expression of a subtree, each recorded after everything below it has
 * been visited (the override descends first and then adds the call).
 *
 * The walk itself is the parser library's visitor adapter, which visits a
 * node's children in the alphabetical order of their property names
 * (arguments before scope, else-branch before then-branch, loop body before
 * loop condition, ...); the functions below follow that order. The
 * properties proved here (each call once, nested calls just before the call
 * that contains them) do not depend on it.
 */
module CallCollection {
  import opened JavaAst
  import opened Collections
  import opened StatementFlattener

  /** Every element of `r` is a method call. */
  predicate OnlyCalls(r: seq<Expr>) {
    forall c :: c in r ==> c.MethodCallExpr?
  }

  function CallsExpr(e: Expr): (r: seq<Expr>)
    ensures OnlyCalls(r)
  {
    match e
    case VariableDeclarationExpr(vars) => CallsDeclarators(vars)
    case MethodCallExpr(scope, _, args) =>
      CallsExprs(args) + (if scope.Some? then CallsExpr(scope.value) else []) + [e]
    case LambdaExpr(_, body) => CallsStmt(body)
    case OtherExpr(_, children) => CallsExprs(children)
  }

  function CallsExprs(es: seq<Expr>): (r: seq<Expr>)
    ensures OnlyCalls(r)
  {
    if es == [] then [] else CallsExprs(es[..|es| - 1]) + CallsExpr(es[|es| - 1])
  }

  function CallsDeclarator(d: Declarator): (r: seq<Expr>)
    ensures OnlyCalls(r)
  {
    if d.initializer.Some? then CallsExpr(d.initializer.value) else []
  }

  function CallsDeclarators(ds: seq<Declarator>): (r: seq<Expr>)
    ensures OnlyCalls(r)
  {
    if ds == [] then [] else CallsDeclarators(ds[..|ds| - 1]) + CallsDeclarator(ds[|ds| - 1])
  }

  function CallsStmt(s: Stmt): (r: seq<Expr>)
    ensures OnlyCalls(r)
  {
    match s
    case ExpressionStmt(e) => CallsExpr(e)
    case IfStmt(c, t, e) => CallsExpr(c) + (if e.Some? then CallsStmt(e.value) else []) + CallsStmt(t)
    case ForeachStmt(v, it, body) => CallsStmt(body) + CallsExpr(it) + CallsExpr(v)
    case ForStmt(init, cmp, upd, body) =>
      CallsStmt(body) + (if cmp.Some? then CallsExpr(cmp.value) else []) + CallsExprs(init) + CallsExprs(upd)
    case BlockStmt(ss) => CallsStmts(ss)
    case DoStmt(body, c) => CallsStmt(body) + CallsExpr(c)
    case WhileStmt(c, body) => CallsStmt(body) + CallsExpr(c)
    case ReturnStmt(v) => if v.Some? then CallsExpr(v.value) else []
    case SwitchEntryStmt(entry) => CallsEntry(entry)
    case SwitchStmt(sel, entries) => CallsEntries(entries) + CallsExpr(sel)
    case SynchronizedStmt(lock, body) => CallsStmt(body) + CallsExpr(lock)
    case TryStmt(res, tryBlock, catches, fin) =>
      CallsCatches(catches) + (if fin.Some? then CallsStmt(fin.value) else []) + CallsExprs(res) + CallsStmt(tryBlock)
    case ThrowStmt(x) => CallsExpr(x)
    case LabeledStmt(_, st) => CallsStmt(st)
    case AssertStmt(check, msg) => CallsExpr(check) + (if msg.Some? then CallsExpr(msg.value) else [])
    case BreakStmt(_) => []
    case ContinueStmt(_) => []
    case EmptyStmt => []
  }

  function CallsStmts(ss: seq<Stmt>): (r: seq<Expr>)
    ensures OnlyCalls(r)
  {
    if ss == [] then [] else CallsStmts(ss[..|ss| - 1]) + CallsStmt(ss[|ss| - 1])
  }

  function CallsEntry(entry: SwitchEntry): (r: seq<Expr>)
    ensures OnlyCalls(r)
  {
    (if entry.caseLabel.Some? then CallsExpr(entry.caseLabel.value) else []) + CallsStmts(entry.statements)
  }

  function CallsEntries(entries: seq<SwitchEntry>): (r: seq<Expr>)
    ensures OnlyCalls(r)
  {
    if entries == [] then [] else CallsEntries(entries[..|entries| - 1]) + CallsEntry(entries[|entries| - 1])
  }

  function CallsCatch(c: CatchClause): (r: seq<Expr>)
    ensures OnlyCalls(r)
  {
    CallsStmt(c.body)
  }

  function CallsCatches(catches: seq<CatchClause>): (r: seq<Expr>)
    ensures OnlyCalls(r)
  {
    if catches == [] then [] else CallsCatches(catches[..|catches| - 1]) + CallsCatch(catches[|catches| - 1])
  }

  /** The calls of a method: those of its body's statements, none without a body. */
  function MethodCalls(m: MethodDecl): (r: seq<Expr>)
    ensures OnlyCalls(r)
    ensures m.body.None? ==> r == []
  {
    match m.body
    case None => []
    case Some(ss) => CallsStmts(ss)
  }

  // ---------------------------------------------------------------------
  // Reference: every expression node of a subtree, in pre-order, the parts
  // of a statement in source order and an `OtherExpr`'s children as held,
  // and the call nodes among them.
  // ---------------------------------------------------------------------

  function ExprNodes(e: Expr): seq<Expr> {
    match e
    case VariableDeclarationExpr(vars) => [e] + ExprNodesDeclarators(vars)
    case MethodCallExpr(scope, _, args) =>
      [e] + (if scope.Some? then ExprNodes(scope.value) else []) + ExprNodesAll(args)
    case LambdaExpr(_, body) => [e] + ExprNodesStmt(body)
    case OtherExpr(_, children) => [e] + ExprNodesAll(children)
  }

  function ExprNodesAll(es: seq<Expr>): seq<Expr> {
    if es == [] then [] else ExprNodesAll(es[..|es| - 1]) + ExprNodes(es[|es| - 1])
  }

  function ExprNodesDeclarator(d: Declarator): seq<Expr> {
    if d.initializer.Some? then ExprNodes(d.initializer.value) else []
  }

  function ExprNodesDeclarators(ds: seq<Declarator>): seq<Expr> {
    if ds == [] then [] else ExprNodesDeclarators(ds[..|ds| - 1]) + ExprNodesDeclarator(ds[|ds| - 1])
  }

  function ExprNodesStmt(s: Stmt): seq<Expr> {
    match s
    case ExpressionStmt(e) => ExprNodes(e)
    case IfStmt(c, t, e) => ExprNodes(c) + ExprNodesStmt(t) + (if e.Some? then ExprNodesStmt(e.value) else [])
    case ForeachStmt(v, it, body) => ExprNodes(v) + ExprNodes(it) + ExprNodesStmt(body)
    case ForStmt(init, cmp, upd, body) =>
      ExprNodesAll(init) + (if cmp.Some? then ExprNodes(cmp.value) else []) + ExprNodesAll(upd) + ExprNodesStmt(body)
    case BlockStmt(ss) => ExprNodesStmts(ss)
    case DoStmt(body, c) => ExprNodesStmt(body) + ExprNodes(c)
    case WhileStmt(c, body) => ExprNodes(c) + ExprNodesStmt(body)
    case ReturnStmt(v) => if v.Some? then ExprNodes(v.value) else []
    case SwitchEntryStmt(entry) => ExprNodesEntry(entry)
    case SwitchStmt(sel, entries) => ExprNodes(sel) + ExprNodesEntries(entries)
    case SynchronizedStmt(lock, body) => ExprNodes(lock) + ExprNodesStmt(body)
    case TryStmt(res, tryBlock, catches, fin) =>
      ExprNodesAll(res) + ExprNodesStmt(tryBlock) + ExprNodesCatches(catches)
      + (if fin.Some? then ExprNodesStmt(fin.value) else [])
    case ThrowStmt(x) => ExprNodes(x)
    case LabeledStmt(_, st) => ExprNodesStmt(st)
    case AssertStmt(check, msg) => ExprNodes(check) + (if msg.Some? then ExprNodes(msg.value) else [])
    case BreakStmt(_) => []
    case ContinueStmt(_) => []
    case EmptyStmt => []
  }

  function ExprNodesStmts(ss: seq<Stmt>): seq<Expr> {
    if ss == [] then [] else ExprNodesStmts(ss[..|ss| - 1]) + ExprNodesStmt(ss[|ss| - 1])
  }

  function ExprNodesEntry(entry: SwitchEntry): seq<Expr> {
    (if entry.caseLabel.Some? then ExprNodes(entry.caseLabel.value) else []) + ExprNodesStmts(entry.statements)
  }

  function ExprNodesEntries(entries: seq<SwitchEntry>): seq<Expr> {
    if entries == [] then [] else ExprNodesEntries(entries[..|entries| - 1]) + ExprNodesEntry(entries[|entries| - 1])
  }

  function ExprNodesCatch(c: CatchClause): seq<Expr> {
    ExprNodesStmt(c.body)
  }

  function ExprNodesCatches(catches: seq<CatchClause>): seq<Expr> {
    if catches == [] then [] else ExprNodesCatches(catches[..|catches| - 1]) + ExprNodesCatch(catches[|catches| - 1])
  }

  function MethodExprNodes(m: MethodDecl): seq<Expr> {
    match m.body
    case None => []
    case Some(ss) => ExprNodesStmts(ss)
  }

  /** The method calls among `xs`, in order. */
  function CallNodes(xs: seq<Expr>): seq<Expr> {
    if xs == [] then [] else (if xs[0].MethodCallExpr? then [xs[0]] else []) + CallNodes(xs[1..])
  }

  lemma {:induction false} CallNodesConcat(a: seq<Expr>, b: seq<Expr>)
    ensures CallNodes(a + b) == CallNodes(a) + CallNodes(b)
  {
    if a == [] {
      assert a + b == b;
      AppendEmpty(CallNodes(b));
    } else {
      assert (a + b)[0] == a[0];
      assert (a + b)[1..] == a[1..] + b;
      CallNodesConcat(a[1..], b);
      AppendAssoc(if a[0].MethodCallExpr? then [a[0]] else [], CallNodes(a[1..]), CallNodes(b));
    }
  }


  // ---------------------------------------------------------------------
  // Each call node is recorded exactly once: the collected list is a
  // permutation of the call nodes of the subtree.
  // ---------------------------------------------------------------------

  lemma CallNodesCons(e: Expr, rest: seq<Expr>)
    ensures CallNodes([e] + rest) == (if e.MethodCallExpr? then [e] else []) + CallNodes(rest)
  {
    assert ([e] + rest)[0] == e;
    assert ([e] + rest)[1..] == rest;
  }

  lemma CallNodesConcat3(a: seq<Expr>, b: seq<Expr>, c: seq<Expr>)
    ensures CallNodes(a + b + c) == CallNodes(a) + CallNodes(b) + CallNodes(c)
  {
    CallNodesConcat(a, b);
    CallNodesConcat(a + b, c);
  }

  lemma CallNodesConcat4(a: seq<Expr>, b: seq<Expr>, c: seq<Expr>, d: seq<Expr>)
    ensures CallNodes(a + b + c + d) == CallNodes(a) + CallNodes(b) + CallNodes(c) + CallNodes(d)
  {
    CallNodesConcat3(a, b, c);
    CallNodesConcat(a + b + c, d);
  }

  // The visitor and the reference list the parts of a node in different
  // orders; these state that the bags agree once the parts do.

  lemma BagSwap2(a: seq<Expr>, b: seq<Expr>, p: seq<Expr>, q: seq<Expr>)
    requires multiset(a) == multiset(q) && multiset(b) == multiset(p)
    ensures multiset(a + b) == multiset(p + q)
  {
  }

  lemma BagReverse3(a: seq<Expr>, b: seq<Expr>, c: seq<Expr>, p: seq<Expr>, q: seq<Expr>, r: seq<Expr>)
    requires multiset(a) == multiset(r) && multiset(b) == multiset(q) && multiset(c) == multiset(p)
    ensures multiset(a + b + c) == multiset(p + q + r)
  {
  }

  lemma BagSwapLast3(a: seq<Expr>, b: seq<Expr>, c: seq<Expr>, p: seq<Expr>, q: seq<Expr>, r: seq<Expr>)
    requires multiset(a) == multiset(p) && multiset(b) == multiset(r) && multiset(c) == multiset(q)
    ensures multiset(a + b + c) == multiset(p + q + r)
  {
  }

  /** The for-loop's parts: body, compare, init, update against init, compare, update, body. */
  lemma BagForOrder(a: seq<Expr>, b: seq<Expr>, c: seq<Expr>, d: seq<Expr>,
                    p: seq<Expr>, q: seq<Expr>, r: seq<Expr>, s: seq<Expr>)
    requires multiset(a) == multiset(s) && multiset(b) == multiset(q)
    requires multiset(c) == multiset(p) && multiset(d) == multiset(r)
    ensures multiset(a + b + c + d) == multiset(p + q + r + s)
  {
  }

  /** The try statement's parts: catches, finally, resources, block against resources, block, catches, finally. */
  lemma BagTryOrder(a: seq<Expr>, b: seq<Expr>, c: seq<Expr>, d: seq<Expr>,
                    p: seq<Expr>, q: seq<Expr>, r: seq<Expr>, s: seq<Expr>)
    requires multiset(a) == multiset(r) && multiset(b) == multiset(s)
    requires multiset(c) == multiset(p) && multiset(d) == multiset(q)
    ensures multiset(a + b + c + d) == multiset(p + q + r + s)
  {
  }

  lemma {:induction false} CallsExprPermutation(e: Expr)
    ensures multiset(CallsExpr(e)) == multiset(CallNodes(ExprNodes(e)))
  {
    match e
    case VariableDeclarationExpr(vars) =>
      CallsDeclaratorsPermutation(vars);
      CallNodesCons(e, ExprNodesDeclarators(vars));
    case MethodCallExpr(_, _, _) =>
      CallsCallPermutation(e);
    case LambdaExpr(_, body) =>
      CallsStmtPermutation(body);
      CallNodesCons(e, ExprNodesStmt(body));
    case OtherExpr(_, children) =>
      CallsExprsPermutation(children);
      CallNodesCons(e, ExprNodesAll(children));
  }

  /** The method-call case: the arguments' calls, the scope's calls and the call itself. */
  lemma {:induction false} CallsCallPermutation(e: Expr)
    requires e.MethodCallExpr?
    ensures multiset(CallsExpr(e)) == multiset(CallNodes(ExprNodes(e)))
    decreases e, 0
  {
    var args := e.arguments;
    var scopeCalls := if e.scope.Some? then CallsExpr(e.scope.value) else [];
    var scopeNodes := if e.scope.Some? then ExprNodes(e.scope.value) else [];
    CallsExprsPermutation(args);
    if e.scope.Some? {
      CallsExprPermutation(e.scope.value);
    }
    assert multiset(scopeCalls) == multiset(CallNodes(scopeNodes));
    assert CallsExpr(e) == CallsExprs(args) + scopeCalls + [e];
    assert ExprNodes(e) == [e] + scopeNodes + ExprNodesAll(args);
    CallNodesConcat3([e], scopeNodes, ExprNodesAll(args));
    CallNodesCons(e, []);
    assert [e] + [] == [e];
    BagReverse3(CallsExprs(args), scopeCalls, [e], [e], CallNodes(scopeNodes), CallNodes(ExprNodesAll(args)));
  }

  lemma {:induction false} CallsExprsPermutation(es: seq<Expr>)
    ensures multiset(CallsExprs(es)) == multiset(CallNodes(ExprNodesAll(es)))
  {
    if es != [] {
      var n := |es| - 1;
      CallsExprsPermutation(es[..n]);
      CallsExprPermutation(es[n]);
      CallNodesConcat(ExprNodesAll(es[..n]), ExprNodes(es[n]));
    }
  }

  lemma {:induction false} CallsDeclaratorPermutation(d: Declarator)
    ensures multiset(CallsDeclarator(d)) == multiset(CallNodes(ExprNodesDeclarator(d)))
  {
    if d.initializer.Some? {
      CallsExprPermutation(d.initializer.value);
    }
  }

  lemma {:induction false} CallsDeclaratorsPermutation(ds: seq<Declarator>)
    ensures multiset(CallsDeclarators(ds)) == multiset(CallNodes(ExprNodesDeclarators(ds)))
  {
    if ds != [] {
      var n := |ds| - 1;
      CallsDeclaratorsPermutation(ds[..n]);
      CallsDeclaratorPermutation(ds[n]);
      CallNodesConcat(ExprNodesDeclarators(ds[..n]), ExprNodesDeclarator(ds[n]));
    }
  }

  lemma {:induction false} CallsStmtPermutation(s: Stmt)
    ensures multiset(CallsStmt(s)) == multiset(CallNodes(ExprNodesStmt(s)))
  {
    match s
    case ExpressionStmt(e) => CallsExprPermutation(e);
    case IfStmt(_, _, _) => CallsIfPermutation(s);
    case ForeachStmt(_, _, _) => CallsForeachPermutation(s);
    case ForStmt(_, _, _, _) => CallsForPermutation(s);
    case BlockStmt(ss) => CallsStmtsPermutation(ss);
    case DoStmt(body, c) =>
      CallsStmtPermutation(body);
      CallsExprPermutation(c);
      CallNodesConcat(ExprNodesStmt(body), ExprNodes(c));
    case WhileStmt(c, body) =>
      CallsStmtPermutation(body);
      CallsExprPermutation(c);
      CallNodesConcat(ExprNodes(c), ExprNodesStmt(body));
      BagSwap2(CallsStmt(body), CallsExpr(c), CallNodes(ExprNodes(c)), CallNodes(ExprNodesStmt(body)));
    case ReturnStmt(v) =>
      if v.Some? {
        CallsExprPermutation(v.value);
      }
    case SwitchEntryStmt(entry) => CallsEntryPermutation(entry);
    case SwitchStmt(sel, entries) =>
      CallsExprPermutation(sel);
      CallsEntriesPermutation(entries);
      CallNodesConcat(ExprNodes(sel), ExprNodesEntries(entries));
      BagSwap2(CallsEntries(entries), CallsExpr(sel), CallNodes(ExprNodes(sel)), CallNodes(ExprNodesEntries(entries)));
    case SynchronizedStmt(lock, body) =>
      CallsExprPermutation(lock);
      CallsStmtPermutation(body);
      CallNodesConcat(ExprNodes(lock), ExprNodesStmt(body));
      BagSwap2(CallsStmt(body), CallsExpr(lock), CallNodes(ExprNodes(lock)), CallNodes(ExprNodesStmt(body)));
    case TryStmt(_, _, _, _) => CallsTryPermutation(s);
    case ThrowStmt(x) => CallsExprPermutation(x);
    case LabeledStmt(_, st) => CallsStmtPermutation(st);
    case AssertStmt(_, _) => CallsAssertPermutation(s);
    case BreakStmt(_) =>
    case ContinueStmt(_) =>
    case EmptyStmt =>
  }

  lemma {:induction false} CallsIfPermutation(s: Stmt)
    requires s.IfStmt?
    ensures multiset(CallsStmt(s)) == multiset(CallNodes(ExprNodesStmt(s)))
    decreases s, 0
  {
    var c, t := s.condition, s.thenStmt;
    var elseCalls := if s.elseStmt.Some? then CallsStmt(s.elseStmt.value) else [];
    var elseNodes := if s.elseStmt.Some? then ExprNodesStmt(s.elseStmt.value) else [];
    CallsExprPermutation(c);
    CallsStmtPermutation(t);
    if s.elseStmt.Some? {
      CallsStmtPermutation(s.elseStmt.value);
    }
    assert multiset(elseCalls) == multiset(CallNodes(elseNodes));
    assert CallsStmt(s) == CallsExpr(c) + elseCalls + CallsStmt(t);
    assert ExprNodesStmt(s) == ExprNodes(c) + ExprNodesStmt(t) + elseNodes;
    CallNodesConcat3(ExprNodes(c), ExprNodesStmt(t), elseNodes);
    BagSwapLast3(CallsExpr(c), elseCalls, CallsStmt(t),
                 CallNodes(ExprNodes(c)), CallNodes(ExprNodesStmt(t)), CallNodes(elseNodes));
  }

  lemma {:induction false} CallsForeachPermutation(s: Stmt)
    requires s.ForeachStmt?
    ensures multiset(CallsStmt(s)) == multiset(CallNodes(ExprNodesStmt(s)))
    decreases s, 0
  {
    var v, it, body := s.variable, s.iterable, s.body;
    CallsExprPermutation(v);
    CallsExprPermutation(it);
    CallsStmtPermutation(body);
    assert CallsStmt(s) == CallsStmt(body) + CallsExpr(it) + CallsExpr(v);
    assert ExprNodesStmt(s) == ExprNodes(v) + ExprNodes(it) + ExprNodesStmt(body);
    CallNodesConcat3(ExprNodes(v), ExprNodes(it), ExprNodesStmt(body));
    BagReverse3(CallsStmt(body), CallsExpr(it), CallsExpr(v),
                CallNodes(ExprNodes(v)), CallNodes(ExprNodes(it)), CallNodes(ExprNodesStmt(body)));
  }

  lemma {:induction false} CallsForPermutation(s: Stmt)
    requires s.ForStmt?
    ensures multiset(CallsStmt(s)) == multiset(CallNodes(ExprNodesStmt(s)))
    decreases s, 0
  {
    var init, upd, body := s.initialization, s.update, s.body;
    var cmpCalls := if s.compare.Some? then CallsExpr(s.compare.value) else [];
    var cmpNodes := if s.compare.Some? then ExprNodes(s.compare.value) else [];
    CallsExprsPermutation(init);
    CallsExprsPermutation(upd);
    CallsStmtPermutation(body);
    if s.compare.Some? {
      CallsExprPermutation(s.compare.value);
    }
    assert multiset(cmpCalls) == multiset(CallNodes(cmpNodes));
    assert CallsStmt(s) == CallsStmt(body) + cmpCalls + CallsExprs(init) + CallsExprs(upd);
    assert ExprNodesStmt(s) == ExprNodesAll(init) + cmpNodes + ExprNodesAll(upd) + ExprNodesStmt(body);
    CallNodesConcat4(ExprNodesAll(init), cmpNodes, ExprNodesAll(upd), ExprNodesStmt(body));
    BagForOrder(CallsStmt(body), cmpCalls, CallsExprs(init), CallsExprs(upd),
                CallNodes(ExprNodesAll(init)), CallNodes(cmpNodes), CallNodes(ExprNodesAll(upd)),
                CallNodes(ExprNodesStmt(body)));
  }

  lemma {:induction false} CallsTryPermutation(s: Stmt)
    requires s.TryStmt?
    ensures multiset(CallsStmt(s)) == multiset(CallNodes(ExprNodesStmt(s)))
    decreases s, 1
  {
    var res, tryBlock, catches := s.resources, s.tryBlock, s.catchClauses;
    var finCalls := if s.finallyBlock.Some? then CallsStmt(s.finallyBlock.value) else [];
    var finNodes := if s.finallyBlock.Some? then ExprNodesStmt(s.finallyBlock.value) else [];
    CallsExprsPermutation(res);
    CallsStmtPermutation(tryBlock);
    CallsCatchesPermutation(catches);
    FinallyPermutation(s);
    TryParts(s);
    CallNodesConcat4(ExprNodesAll(res), ExprNodesStmt(tryBlock), ExprNodesCatches(catches), finNodes);
    BagTryOrder(CallsCatches(catches), finCalls, CallsExprs(res), CallsStmt(tryBlock),
                CallNodes(ExprNodesAll(res)), CallNodes(ExprNodesStmt(tryBlock)),
                CallNodes(ExprNodesCatches(catches)), CallNodes(finNodes));
  }

  lemma {:induction false} FinallyPermutation(s: Stmt)
    requires s.TryStmt?
    ensures multiset(if s.finallyBlock.Some? then CallsStmt(s.finallyBlock.value) else [])
         == multiset(CallNodes(if s.finallyBlock.Some? then ExprNodesStmt(s.finallyBlock.value) else []))
    decreases s, 0
  {
    if s.finallyBlock.Some? {
      CallsStmtPermutation(s.finallyBlock.value);
    }
  }

  lemma {:induction false} CallsAssertPermutation(s: Stmt)
    requires s.AssertStmt?
    ensures multiset(CallsStmt(s)) == multiset(CallNodes(ExprNodesStmt(s)))
    decreases s, 0
  {
    var check := s.check;
    var msgCalls := if s.message.Some? then CallsExpr(s.message.value) else [];
    var msgNodes := if s.message.Some? then ExprNodes(s.message.value) else [];
    CallsExprPermutation(check);
    if s.message.Some? {
      CallsExprPermutation(s.message.value);
    }
    assert multiset(msgCalls) == multiset(CallNodes(msgNodes));
    assert CallsStmt(s) == CallsExpr(check) + msgCalls;
    assert ExprNodesStmt(s) == ExprNodes(check) + msgNodes;
    CallNodesConcat(ExprNodes(check), msgNodes);
  }

  lemma {:induction false} CallsStmtsPermutation(ss: seq<Stmt>)
    ensures multiset(CallsStmts(ss)) == multiset(CallNodes(ExprNodesStmts(ss)))
  {
    if ss != [] {
      var n := |ss| - 1;
      CallsStmtsPermutation(ss[..n]);
      CallsStmtPermutation(ss[n]);
      CallNodesConcat(ExprNodesStmts(ss[..n]), ExprNodesStmt(ss[n]));
    }
  }

  lemma {:induction false} CallsEntryPermutation(entry: SwitchEntry)
    ensures multiset(CallsEntry(entry)) == multiset(CallNodes(ExprNodesEntry(entry)))
  {
    var labelCalls := if entry.caseLabel.Some? then CallsExpr(entry.caseLabel.value) else [];
    var labelNodes := if entry.caseLabel.Some? then ExprNodes(entry.caseLabel.value) else [];
    if entry.caseLabel.Some? {
      CallsExprPermutation(entry.caseLabel.value);
    }
    assert multiset(labelCalls) == multiset(CallNodes(labelNodes));
    CallsStmtsPermutation(entry.statements);
    CallNodesConcat(labelNodes, ExprNodesStmts(entry.statements));
  }

  lemma {:induction false} CallsEntriesPermutation(entries: seq<SwitchEntry>)
    ensures multiset(CallsEntries(entries)) == multiset(CallNodes(ExprNodesEntries(entries)))
  {
    if entries != [] {
      var n := |entries| - 1;
      CallsEntriesPermutation(entries[..n]);
      CallsEntryPermutation(entries[n]);
      CallNodesConcat(ExprNodesEntries(entries[..n]), ExprNodesEntry(entries[n]));
    }
  }

  lemma {:induction false} CallsCatchPermutation(c: CatchClause)
    ensures multiset(CallsCatch(c)) == multiset(CallNodes(ExprNodesCatch(c)))
  {
    CallsStmtPermutation(c.body);
  }

  lemma {:induction false} CallsCatchesPermutation(catches: seq<CatchClause>)
    ensures multiset(CallsCatches(catches)) == multiset(CallNodes(ExprNodesCatches(catches)))
  {
    if catches != [] {
      var n := |catches| - 1;
      CallsCatchesPermutation(catches[..n]);
      CallsCatchPermutation(catches[n]);
      CallNodesConcat(ExprNodesCatches(catches[..n]), ExprNodesCatch(catches[n]));
    }
  }

  /**
   * The calls collected from a method are its call nodes, each exactly as
   * often as it occurs, so their number is the number of call nodes.
   */
  lemma MethodCallsPermutation(m: MethodDecl)
    ensures multiset(MethodCalls(m)) == multiset(CallNodes(MethodExprNodes(m)))
    ensures |MethodCalls(m)| == |CallNodes(MethodExprNodes(m))|
  {
    if m.body.Some? {
      CallsStmtsPermutation(m.body.value);
    }
    assert |multiset(MethodCalls(m))| == |multiset(CallNodes(MethodExprNodes(m)))|;
  }

  // ---------------------------------------------------------------------
  // Post-order: the calls found below a call are recorded just before it,
  // as one contiguous block.
  // ---------------------------------------------------------------------

  /** The calls of `r[i]`'s own subtree, `r[i]` last, end at position `i` of `r`. */
  predicate BlockEndsAt(r: seq<Expr>, i: nat)
    requires i < |r|
  {
    var block := CallsExpr(r[i]);
    |block| <= i + 1 && r[i + 1 - |block| .. i + 1] == block
  }

  predicate PostOrdered(r: seq<Expr>) {
    forall i :: 0 <= i < |r| ==> BlockEndsAt(r, i)
  }

  lemma PostOrderedConcat(a: seq<Expr>, b: seq<Expr>)
    requires PostOrdered(a) && PostOrdered(b)
    ensures PostOrdered(a + b)
  {
    var r := a + b;
    forall i | 0 <= i < |r|
      ensures BlockEndsAt(r, i)
    {
      if i < |a| {
        assert BlockEndsAt(a, i);
        var block := CallsExpr(a[i]);
        assert r[i + 1 - |block| .. i + 1] == a[i + 1 - |block| .. i + 1];
      } else {
        var j := i - |a|;
        assert BlockEndsAt(b, j);
        var block := CallsExpr(b[j]);
        assert r[i + 1 - |block| .. i + 1] == b[j + 1 - |block| .. j + 1];
      }
    }
  }

  lemma PostOrderedConcat3(a: seq<Expr>, b: seq<Expr>, c: seq<Expr>)
    requires PostOrdered(a) && PostOrdered(b) && PostOrdered(c)
    ensures PostOrdered(a + b + c)
  {
    PostOrderedConcat(a, b);
    PostOrderedConcat(a + b, c);
  }

  lemma PostOrderedConcat4(a: seq<Expr>, b: seq<Expr>, c: seq<Expr>, d: seq<Expr>)
    requires PostOrdered(a) && PostOrdered(b) && PostOrdered(c) && PostOrdered(d)
    ensures PostOrdered(a + b + c + d)
  {
    PostOrderedConcat3(a, b, c);
    PostOrderedConcat(a + b + c, d);
  }

  /** Appending a call after the post-ordered calls of its children keeps the list post-ordered. */
  lemma PostOrderedCall(e: Expr, below: seq<Expr>)
    requires CallsExpr(e) == below + [e]
    requires PostOrdered(below)
    ensures PostOrdered(below + [e])
  {
    var r := below + [e];
    forall i | 0 <= i < |below|
      ensures BlockEndsAt(r, i)
    {
      assert BlockEndsAt(below, i);
      assert r[i] == below[i];
      var block := CallsExpr(below[i]);
      assert r[i + 1 - |block| .. i + 1] == below[i + 1 - |block| .. i + 1];
    }
    var last := |below|;
    assert r[last] == e;
    assert r[last + 1 - |r| .. last + 1] == r;
    assert BlockEndsAt(r, last);
  }

  lemma {:induction false} CallsExprPostOrdered(e: Expr)
    ensures PostOrdered(CallsExpr(e))
  {
    match e
    case VariableDeclarationExpr(vars) => CallsDeclaratorsPostOrdered(vars);
    case MethodCallExpr(scope, _, args) =>
      CallsExprsPostOrdered(args);
      if scope.Some? {
        CallsExprPostOrdered(scope.value);
      }
      var below := CallsExprs(args) + (if scope.Some? then CallsExpr(scope.value) else []);
      PostOrderedConcat(CallsExprs(args), if scope.Some? then CallsExpr(scope.value) else []);
      PostOrderedCall(e, below);
    case LambdaExpr(_, body) => CallsStmtPostOrdered(body);
    case OtherExpr(_, children) => CallsExprsPostOrdered(children);
  }

  lemma {:induction false} CallsExprsPostOrdered(es: seq<Expr>)
    ensures PostOrdered(CallsExprs(es))
  {
    if es != [] {
      var n := |es| - 1;
      CallsExprsPostOrdered(es[..n]);
      CallsExprPostOrdered(es[n]);
      PostOrderedConcat(CallsExprs(es[..n]), CallsExpr(es[n]));
    }
  }

  lemma {:induction false} CallsDeclaratorsPostOrdered(ds: seq<Declarator>)
    ensures PostOrdered(CallsDeclarators(ds))
  {
    if ds != [] {
      var n := |ds| - 1;
      CallsDeclaratorsPostOrdered(ds[..n]);
      if ds[n].initializer.Some? {
        CallsExprPostOrdered(ds[n].initializer.value);
      }
      PostOrderedConcat(CallsDeclarators(ds[..n]), CallsDeclarator(ds[n]));
    }
  }

  lemma {:induction false} CallsStmtPostOrdered(s: Stmt)
    ensures PostOrdered(CallsStmt(s))
  {
    match s
    case ExpressionStmt(e) => CallsExprPostOrdered(e);
    case IfStmt(_, _, _) => IfPostOrdered(s);
    case ForeachStmt(_, _, _) => ForeachPostOrdered(s);
    case ForStmt(_, _, _, _) => ForPostOrdered(s);
    case BlockStmt(ss) => CallsStmtsPostOrdered(ss);
    case DoStmt(_, _) => LoopPostOrdered(s);
    case WhileStmt(_, _) => LoopPostOrdered(s);
    case ReturnStmt(v) => OptExprPostOrdered(v);
    case SwitchEntryStmt(entry) => CallsEntryPostOrdered(entry);
    case SwitchStmt(_, _) => SwitchPostOrdered(s);
    case SynchronizedStmt(_, _) => SynchronizedPostOrdered(s);
    case TryStmt(_, _, _, _) => TryPostOrdered(s);
    case ThrowStmt(x) => CallsExprPostOrdered(x);
    case LabeledStmt(_, st) => CallsStmtPostOrdered(st);
    case AssertStmt(_, _) => AssertPostOrdered(s);
    case BreakStmt(_) =>
    case ContinueStmt(_) =>
    case EmptyStmt =>
  }

  lemma {:induction false} IfPostOrdered(s: Stmt)
    requires s.IfStmt?
    ensures PostOrdered(CallsStmt(s))
    decreases s, 0
  {
    var c, t, e := s.condition, s.thenStmt, s.elseStmt;
    CallsExprPostOrdered(c);
    OptStmtPostOrdered(e);
    CallsStmtPostOrdered(t);
    PostOrderedConcat3(CallsExpr(c), if e.Some? then CallsStmt(e.value) else [], CallsStmt(t));
  }

  lemma {:induction false} ForeachPostOrdered(s: Stmt)
    requires s.ForeachStmt?
    ensures PostOrdered(CallsStmt(s))
    decreases s, 0
  {
    CallsExprPostOrdered(s.variable);
    CallsExprPostOrdered(s.iterable);
    CallsStmtPostOrdered(s.body);
    PostOrderedConcat3(CallsStmt(s.body), CallsExpr(s.iterable), CallsExpr(s.variable));
  }

  lemma {:induction false} ForPostOrdered(s: Stmt)
    requires s.ForStmt?
    ensures PostOrdered(CallsStmt(s))
    decreases s, 0
  {
    var init, cmp, upd, body := s.initialization, s.compare, s.update, s.body;
    CallsExprsPostOrdered(init);
    OptExprPostOrdered(cmp);
    CallsExprsPostOrdered(upd);
    CallsStmtPostOrdered(body);
    PostOrderedConcat4(CallsStmt(body), if cmp.Some? then CallsExpr(cmp.value) else [],
                       CallsExprs(init), CallsExprs(upd));
  }

  /** The do and while statements: the body's calls, then the condition's. */
  lemma {:induction false} LoopPostOrdered(s: Stmt)
    requires s.DoStmt? || s.WhileStmt?
    ensures PostOrdered(CallsStmt(s))
    decreases s, 0
  {
    CallsStmtPostOrdered(s.body);
    CallsExprPostOrdered(s.condition);
    assert CallsStmt(s) == CallsStmt(s.body) + CallsExpr(s.condition);
    PostOrderedConcat(CallsStmt(s.body), CallsExpr(s.condition));
  }

  lemma {:induction false} SwitchPostOrdered(s: Stmt)
    requires s.SwitchStmt?
    ensures PostOrdered(CallsStmt(s))
    decreases s, 0
  {
    CallsEntriesPostOrdered(s.entries);
    CallsExprPostOrdered(s.selector);
    PostOrderedConcat(CallsEntries(s.entries), CallsExpr(s.selector));
  }

  lemma {:induction false} SynchronizedPostOrdered(s: Stmt)
    requires s.SynchronizedStmt?
    ensures PostOrdered(CallsStmt(s))
    decreases s, 0
  {
    CallsStmtPostOrdered(s.body);
    CallsExprPostOrdered(s.lock);
    PostOrderedConcat(CallsStmt(s.body), CallsExpr(s.lock));
  }

  lemma {:induction false} TryPostOrdered(s: Stmt)
    requires s.TryStmt?
    ensures PostOrdered(CallsStmt(s))
    decreases s, 0
  {
    var res, tryBlock, catches, fin := s.resources, s.tryBlock, s.catchClauses, s.finallyBlock;
    CallsCatchesPostOrdered(catches);
    OptStmtPostOrdered(fin);
    CallsExprsPostOrdered(res);
    CallsStmtPostOrdered(tryBlock);
    PostOrderedConcat4(CallsCatches(catches), if fin.Some? then CallsStmt(fin.value) else [],
                       CallsExprs(res), CallsStmt(tryBlock));
  }

  lemma {:induction false} AssertPostOrdered(s: Stmt)
    requires s.AssertStmt?
    ensures PostOrdered(CallsStmt(s))
    decreases s, 0
  {
    CallsExprPostOrdered(s.check);
    OptExprPostOrdered(s.message);
    PostOrderedConcat(CallsExpr(s.check), if s.message.Some? then CallsExpr(s.message.value) else []);
  }

  lemma {:induction false} OptExprPostOrdered(o: Option<Expr>)
    ensures PostOrdered(if o.Some? then CallsExpr(o.value) else [])
  {
    if o.Some? {
      CallsExprPostOrdered(o.value);
    }
  }

  lemma {:induction false} OptStmtPostOrdered(o: Option<Stmt>)
    ensures PostOrdered(if o.Some? then CallsStmt(o.value) else [])
  {
    if o.Some? {
      CallsStmtPostOrdered(o.value);
    }
  }

  lemma {:induction false} CallsStmtsPostOrdered(ss: seq<Stmt>)
    ensures PostOrdered(CallsStmts(ss))
  {
    if ss != [] {
      var n := |ss| - 1;
      CallsStmtsPostOrdered(ss[..n]);
      CallsStmtPostOrdered(ss[n]);
      PostOrderedConcat(CallsStmts(ss[..n]), CallsStmt(ss[n]));
    }
  }

  lemma {:induction false} CallsEntryPostOrdered(entry: SwitchEntry)
    ensures PostOrdered(CallsEntry(entry))
  {
    if entry.caseLabel.Some? {
      CallsExprPostOrdered(entry.caseLabel.value);
    }
    CallsStmtsPostOrdered(entry.statements);
    PostOrderedConcat(if entry.caseLabel.Some? then CallsExpr(entry.caseLabel.value) else [],
                      CallsStmts(entry.statements));
  }

  lemma {:induction false} CallsEntriesPostOrdered(entries: seq<SwitchEntry>)
    ensures PostOrdered(CallsEntries(entries))
  {
    if entries != [] {
      var n := |entries| - 1;
      CallsEntriesPostOrdered(entries[..n]);
      CallsEntryPostOrdered(entries[n]);
      PostOrderedConcat(CallsEntries(entries[..n]), CallsEntry(entries[n]));
    }
  }

  lemma {:induction false} CallsCatchPostOrdered(c: CatchClause)
    ensures PostOrdered(CallsCatch(c))
  {
    CallsStmtPostOrdered(c.body);
  }

  lemma {:induction false} CallsCatchesPostOrdered(catches: seq<CatchClause>)
    ensures PostOrdered(CallsCatches(catches))
  {
    if catches != [] {
      var n := |catches| - 1;
      CallsCatchesPostOrdered(catches[..n]);
      CallsCatchPostOrdered(catches[n]);
      PostOrderedConcat(CallsCatches(catches[..n]), CallsCatch(catches[n]));
    }
  }

  /**
   * In a method's collected calls, every call is preceded immediately by
   * the calls nested in its scope and arguments, and is the last of them.
   */
  lemma MethodCallsPostOrdered(m: MethodDecl, i: nat)
    requires i < |MethodCalls(m)|
    ensures var r := MethodCalls(m);
      var block := CallsExpr(r[i]);
      r[i].MethodCallExpr? && |block| <= i + 1 && r[i + 1 - |block| .. i + 1] == block
      && block[|block| - 1] == r[i]
  {
    CallsStmtsPostOrdered(m.body.value);
    assert BlockEndsAt(MethodCalls(m), i);
  }

  // ---------------------------------------------------------------------
  // The collector sees every call the flattener's expressions contain.
  // ---------------------------------------------------------------------

  lemma {:induction false} CallsExprsConcat(a: seq<Expr>, b: seq<Expr>)
    ensures CallsExprs(a + b) == CallsExprs(a) + CallsExprs(b)
  {
    if b == [] {
      assert a + b == a;
      AppendEmpty(CallsExprs(a));
    } else {
      var n := |b| - 1;
      assert (a + b)[..|a + b| - 1] == a + b[..n];
      assert (a + b)[|a + b| - 1] == b[n];
      CallsExprsConcat(a, b[..n]);
      AppendAssoc(CallsExprs(a), CallsExprs(b[..n]), CallsExpr(b[n]));
    }
  }


  // Sub-bag steps: the flattened parts of a statement are among its parts.

  lemma SubBag2(x: seq<Expr>, y: seq<Expr>, a: seq<Expr>, b: seq<Expr>)
    requires multiset(x) <= multiset(a) && multiset(y) <= multiset(b)
    ensures multiset(x + y) <= multiset(a + b)
  {
  }

  lemma SubBagPrefix(x: seq<Expr>, a: seq<Expr>, b: seq<Expr>)
    requires multiset(x) <= multiset(a)
    ensures multiset(x) <= multiset(a + b)
  {
  }

  lemma SubBagEmpty(x: seq<Expr>, a: seq<Expr>)
    requires x == []
    ensures multiset(x) <= multiset(a)
  {
  }

  lemma SubBagSuffix(x: seq<Expr>, a: seq<Expr>, b: seq<Expr>)
    requires multiset(x) <= multiset(b)
    ensures multiset(x) <= multiset(a + b)
  {
  }

  /** The if statement: then-branch and else-branch against condition, else-branch, then-branch. */
  lemma SubBagIfOrder(x: seq<Expr>, y: seq<Expr>, a: seq<Expr>, b: seq<Expr>, c: seq<Expr>)
    requires multiset(x) <= multiset(c) && multiset(y) <= multiset(b)
    ensures multiset(x + y) <= multiset(a + b + c)
  {
  }

  /** The try statement: block, catches, finally against catches, finally, resources, block. */
  lemma SubBagTryOrder(x: seq<Expr>, y: seq<Expr>, z: seq<Expr>, a: seq<Expr>, b: seq<Expr>, c: seq<Expr>, d: seq<Expr>)
    requires multiset(x) <= multiset(d) && multiset(y) <= multiset(a) && multiset(z) <= multiset(b)
    ensures multiset(x + y + z) <= multiset(a + b + c + d)
  {
  }

  lemma CallsExprsConcat3(a: seq<Expr>, b: seq<Expr>, c: seq<Expr>)
    ensures CallsExprs(a + b + c) == CallsExprs(a) + CallsExprs(b) + CallsExprs(c)
  {
    CallsExprsConcat(a, b);
    CallsExprsConcat(a + b, c);
  }

  lemma CallsExprsSingleton(e: Expr)
    ensures CallsExprs([e]) == CallsExpr(e)
  {
    assert [e][..0] == [];
    AppendEmpty(CallsExpr(e));
  }

  lemma {:induction false} FlattenedCallsCollected(s: Stmt)
    ensures multiset(CallsExprs(Flatten(s))) <= multiset(CallsStmt(s))
  {
    match s
    case ExpressionStmt(e) => CallsExprsSingleton(e);
    case IfStmt(_, _, _) => FlattenedIfCallsCollected(s);
    case ForeachStmt(_, _, _) => FlattenedForeachCallsCollected(s);
    case ForStmt(_, _, _, _) => FlattenedForCallsCollected(s);
    case BlockStmt(ss) => FlattenAllCallsCollected(ss);
    case DoStmt(_, _) => FlattenedLoopCallsCollected(s);
    case WhileStmt(_, _) => FlattenedLoopCallsCollected(s);
    case ReturnStmt(_) => FlattenedReturnCallsCollected(s);
    case SwitchEntryStmt(entry) => FlattenEntryCallsCollected(entry);
    case SwitchStmt(_, _) => FlattenedSwitchCallsCollected(s);
    case SynchronizedStmt(_, _) => FlattenedSynchronizedCallsCollected(s);
    case TryStmt(_, _, _, _) => FlattenedTryCallsCollected(s);
    case _ => IgnoredCallsCollected(s);
  }

  /** A statement whose flattening is its body's, and whose calls start with its body's. */
  lemma BodyCallsCollected(s: Stmt, body: Stmt, rest: seq<Expr>)
    requires Flatten(s) == Flatten(body) && CallsStmt(s) == CallsStmt(body) + rest
    requires multiset(CallsExprs(Flatten(body))) <= multiset(CallsStmt(body))
    ensures multiset(CallsExprs(Flatten(s))) <= multiset(CallsStmt(s))
  {
    SubBagPrefix(CallsExprs(Flatten(body)), CallsStmt(body), rest);
  }

  lemma {:induction false} FlattenedForeachCallsCollected(s: Stmt)
    requires s.ForeachStmt?
    ensures multiset(CallsExprs(Flatten(s))) <= multiset(CallsStmt(s))
    decreases s, 0
  {
    var body := s.body;
    FlattenedCallsCollected(body);
    AppendAssoc(CallsStmt(body), CallsExpr(s.iterable), CallsExpr(s.variable));
    BodyCallsCollected(s, body, CallsExpr(s.iterable) + CallsExpr(s.variable));
  }

  lemma {:induction false} FlattenedForCallsCollected(s: Stmt)
    requires s.ForStmt?
    ensures multiset(CallsExprs(Flatten(s))) <= multiset(CallsStmt(s))
    decreases s, 0
  {
    var body := s.body;
    var cmpCalls := if s.compare.Some? then CallsExpr(s.compare.value) else [];
    FlattenedCallsCollected(body);
    AppendAssoc3(CallsStmt(body), cmpCalls, CallsExprs(s.initialization), CallsExprs(s.update));
    BodyCallsCollected(s, body, cmpCalls + CallsExprs(s.initialization) + CallsExprs(s.update));
  }

  /** The do and while statements: the body, then the condition. */
  lemma {:induction false} FlattenedLoopCallsCollected(s: Stmt)
    requires s.DoStmt? || s.WhileStmt?
    ensures multiset(CallsExprs(Flatten(s))) <= multiset(CallsStmt(s))
    decreases s, 0
  {
    var body := s.body;
    FlattenedCallsCollected(body);
    assert Flatten(s) == Flatten(body);
    assert CallsStmt(s) == CallsStmt(body) + CallsExpr(s.condition);
    SubBagPrefix(CallsExprs(Flatten(body)), CallsStmt(body), CallsExpr(s.condition));
  }

  lemma {:induction false} FlattenedSynchronizedCallsCollected(s: Stmt)
    requires s.SynchronizedStmt?
    ensures multiset(CallsExprs(Flatten(s))) <= multiset(CallsStmt(s))
    decreases s, 0
  {
    var body := s.body;
    FlattenedCallsCollected(body);
    assert Flatten(s) == Flatten(body);
    assert CallsStmt(s) == CallsStmt(body) + CallsExpr(s.lock);
    SubBagPrefix(CallsExprs(Flatten(body)), CallsStmt(body), CallsExpr(s.lock));
  }

  lemma {:induction false} FlattenedSwitchCallsCollected(s: Stmt)
    requires s.SwitchStmt?
    ensures multiset(CallsExprs(Flatten(s))) <= multiset(CallsStmt(s))
    decreases s, 0
  {
    var entries := s.entries;
    FlattenEntriesCallsCollected(entries);
    assert Flatten(s) == FlattenEntries(entries);
    assert CallsStmt(s) == CallsEntries(entries) + CallsExpr(s.selector);
    SubBagPrefix(CallsExprs(FlattenEntries(entries)), CallsEntries(entries), CallsExpr(s.selector));
  }

  /** Nothing of these statements is flattened, so there is nothing to find. */
  lemma IgnoredCallsCollected(s: Stmt)
    requires s.ThrowStmt? || s.LabeledStmt? || s.AssertStmt? || s.BreakStmt? || s.ContinueStmt? || s.EmptyStmt?
    ensures multiset(CallsExprs(Flatten(s))) <= multiset(CallsStmt(s))
  {
    assert Flatten(s) == [];
    assert CallsExprs([]) == [];
    SubBagEmpty(CallsExprs(Flatten(s)), CallsStmt(s));
  }

  lemma FlattenedReturnCallsCollected(s: Stmt)
    requires s.ReturnStmt?
    ensures multiset(CallsExprs(Flatten(s))) <= multiset(CallsStmt(s))
  {
    if s.value.Some? {
      CallsExprsSingleton(s.value.value);
    }
  }

  lemma {:induction false} FlattenedIfCallsCollected(s: Stmt)
    requires s.IfStmt?
    ensures multiset(CallsExprs(Flatten(s))) <= multiset(CallsStmt(s))
    decreases s, 0
  {
    var t := s.thenStmt;
    var elseFlat := if s.elseStmt.Some? then Flatten(s.elseStmt.value) else [];
    var elseCalls := if s.elseStmt.Some? then CallsStmt(s.elseStmt.value) else [];
    FlattenedCallsCollected(t);
    if s.elseStmt.Some? {
      FlattenedCallsCollected(s.elseStmt.value);
    }
    assert multiset(CallsExprs(elseFlat)) <= multiset(elseCalls);
    assert Flatten(s) == Flatten(t) + elseFlat;
    assert CallsStmt(s) == CallsExpr(s.condition) + elseCalls + CallsStmt(t);
    CallsExprsConcat(Flatten(t), elseFlat);
    SubBagIfOrder(CallsExprs(Flatten(t)), CallsExprs(elseFlat), CallsExpr(s.condition), elseCalls, CallsStmt(t));
  }

  lemma {:induction false} FlattenedTryCallsCollected(s: Stmt)
    requires s.TryStmt?
    ensures multiset(CallsExprs(Flatten(s))) <= multiset(CallsStmt(s))
    decreases s, 1
  {
    var tryBlock, catches := s.tryBlock, s.catchClauses;
    var finFlat := if s.finallyBlock.Some? then Flatten(s.finallyBlock.value) else [];
    var finCalls := if s.finallyBlock.Some? then CallsStmt(s.finallyBlock.value) else [];
    FlattenedCallsCollected(tryBlock);
    FlattenCatchesCallsCollected(catches);
    FinallyCallsCollected(s);
    TryParts(s);
    CallsExprsConcat3(Flatten(tryBlock), FlattenCatches(catches), finFlat);
    SubBagTryOrder(CallsExprs(Flatten(tryBlock)), CallsExprs(FlattenCatches(catches)), CallsExprs(finFlat),
                   CallsCatches(catches), finCalls, CallsExprs(s.resources), CallsStmt(tryBlock));
  }

  /** How the flattening and the calls of a try statement are made of its parts. */
  lemma TryParts(s: Stmt)
    requires s.TryStmt?
    ensures Flatten(s) == Flatten(s.tryBlock) + FlattenCatches(s.catchClauses)
      + (if s.finallyBlock.Some? then Flatten(s.finallyBlock.value) else [])
    ensures CallsStmt(s) == CallsCatches(s.catchClauses)
      + (if s.finallyBlock.Some? then CallsStmt(s.finallyBlock.value) else [])
      + CallsExprs(s.resources) + CallsStmt(s.tryBlock)
    ensures ExprNodesStmt(s) == ExprNodesAll(s.resources) + ExprNodesStmt(s.tryBlock) + ExprNodesCatches(s.catchClauses)
      + (if s.finallyBlock.Some? then ExprNodesStmt(s.finallyBlock.value) else [])
  {
  }

  lemma {:induction false} FinallyCallsCollected(s: Stmt)
    requires s.TryStmt?
    ensures multiset(CallsExprs(if s.finallyBlock.Some? then Flatten(s.finallyBlock.value) else []))
         <= multiset(if s.finallyBlock.Some? then CallsStmt(s.finallyBlock.value) else [])
    decreases s, 0
  {
    if s.finallyBlock.Some? {
      FlattenedCallsCollected(s.finallyBlock.value);
    }
  }

  lemma {:induction false} FlattenAllCallsCollected(ss: seq<Stmt>)
    ensures multiset(CallsExprs(FlattenAll(ss))) <= multiset(CallsStmts(ss))
  {
    if ss != [] {
      var n := |ss| - 1;
      FlattenAllCallsCollected(ss[..n]);
      FlattenedCallsCollected(ss[n]);
      CallsExprsConcat(FlattenAll(ss[..n]), Flatten(ss[n]));
      SubBag2(CallsExprs(FlattenAll(ss[..n])), CallsExprs(Flatten(ss[n])), CallsStmts(ss[..n]), CallsStmt(ss[n]));
    }
  }

  lemma {:induction false} FlattenEntryCallsCollected(entry: SwitchEntry)
    ensures multiset(CallsExprs(FlattenEntry(entry))) <= multiset(CallsEntry(entry))
  {
    FlattenAllCallsCollected(entry.statements);
    SubBagSuffix(CallsExprs(FlattenAll(entry.statements)),
                 if entry.caseLabel.Some? then CallsExpr(entry.caseLabel.value) else [], CallsStmts(entry.statements));
  }

  lemma {:induction false} FlattenEntriesCallsCollected(entries: seq<SwitchEntry>)
    ensures multiset(CallsExprs(FlattenEntries(entries))) <= multiset(CallsEntries(entries))
  {
    if entries != [] {
      var n := |entries| - 1;
      FlattenEntriesCallsCollected(entries[..n]);
      FlattenEntryCallsCollected(entries[n]);
      CallsExprsConcat(FlattenEntries(entries[..n]), FlattenEntry(entries[n]));
      SubBag2(CallsExprs(FlattenEntries(entries[..n])), CallsExprs(FlattenEntry(entries[n])),
              CallsEntries(entries[..n]), CallsEntry(entries[n]));
    }
  }

  lemma {:induction false} FlattenCatchCallsCollected(c: CatchClause)
    ensures multiset(CallsExprs(FlattenCatch(c))) <= multiset(CallsCatch(c))
  {
    FlattenedCallsCollected(c.body);
  }

  lemma {:induction false} FlattenCatchesCallsCollected(catches: seq<CatchClause>)
    ensures multiset(CallsExprs(FlattenCatches(catches))) <= multiset(CallsCatches(catches))
  {
    if catches != [] {
      var n := |catches| - 1;
      FlattenCatchesCallsCollected(catches[..n]);
      FlattenCatchCallsCollected(catches[n]);
      CallsExprsConcat(FlattenCatches(catches[..n]), FlattenCatch(catches[n]));
      SubBag2(CallsExprs(FlattenCatches(catches[..n])), CallsExprs(FlattenCatch(catches[n])),
              CallsCatches(catches[..n]), CallsCatch(catches[n]));
    }
  }

  /** Every call inside a method's flattened expressions is among the method's collected calls. */
  lemma MethodExpressionCallsCollected(m: MethodDecl)
    ensures multiset(CallsExprs(MethodExpressions(m))) <= multiset(MethodCalls(m))
  {
    if m.body.Some? {
      FlattenAllCallsCollected(m.body.value);
    }
  }

  /** `f(g(), h());` yields three calls: `g()`, `h()`, then `f(...)`. */
  lemma NestedCallsExample(g: Expr, h: Expr)
    requires g == MethodCallExpr(None, "g", []) && h == MethodCallExpr(None, "h", [])
    ensures CallsStmt(ExpressionStmt(MethodCallExpr(None, "f", [g, h]))) == [g, h, MethodCallExpr(None, "f", [g, h])]
  {
    var f := MethodCallExpr(None, "f", [g, h]);
    assert CallsExprs([]) == [];
    assert CallsExpr(g) == [g];
    assert CallsExpr(h) == [h];
    CallsExprsSingleton(g);
    assert [g, h][..1] == [g];
    assert CallsExprs([g, h]) == CallsExprs([g]) + CallsExpr(h);
    assert CallsExpr(f) == CallsExprs([g, h]) + [] + [f];
  }

  /**
   * The flattener does not look inside a labeled statement, while the
   * collector does: `l: foo();` flattens to nothing and still yields `foo()`.
   */
  lemma LabeledStatementExample(foo: Expr)
    requires foo == MethodCallExpr(None, "foo", [])
    ensures Flatten(LabeledStmt("l", ExpressionStmt(foo))) == []
    ensures CallsStmt(LabeledStmt("l", ExpressionStmt(foo))) == [foo]
  {
  }
}
