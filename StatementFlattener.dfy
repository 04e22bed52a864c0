/**
 * What `processStatements` collects, as functions: the expressions that
 * stand as statements or as return values, found by descending through
 * blocks, both branches of an `if`, loop bodies, switch entries,
 * synchronized bodies and every part of a `try`, in source order.
 *
 * The functions over sequences add the last element's part at the end,
 * which is how the accumulator loops of the source grow their list.
 */
module StatementFlattener {
  import opened JavaAst
  import opened Collections

  /** The expressions appended for one statement. */
  function Flatten(s: Stmt): seq<Expr> {
    match s
    case ExpressionStmt(e) => [e]
    case IfStmt(_, t, e) => Flatten(t) + (if e.Some? then Flatten(e.value) else [])
    case ForeachStmt(_, _, body) => Flatten(body)
    case ForStmt(_, _, _, body) => Flatten(body)
    case BlockStmt(ss) => FlattenAll(ss)
    case DoStmt(body, _) => Flatten(body)
    case WhileStmt(_, body) => Flatten(body)
    case ReturnStmt(v) => if v.Some? then [v.value] else []
    case SwitchEntryStmt(entry) => FlattenEntry(entry)
    case SwitchStmt(_, entries) => FlattenEntries(entries)
    case SynchronizedStmt(_, body) => Flatten(body)
    case TryStmt(_, tryBlock, catches, fin) =>
      Flatten(tryBlock) + FlattenCatches(catches) + (if fin.Some? then Flatten(fin.value) else [])
    case _ => []
  }

  /** The statements of a list, one after the other. */
  function FlattenAll(ss: seq<Stmt>): seq<Expr> {
    if ss == [] then [] else FlattenAll(ss[..|ss| - 1]) + Flatten(ss[|ss| - 1])
  }

  function FlattenEntry(entry: SwitchEntry): seq<Expr> {
    FlattenAll(entry.statements)
  }

  function FlattenEntries(entries: seq<SwitchEntry>): seq<Expr> {
    if entries == [] then []
    else FlattenEntries(entries[..|entries| - 1]) + FlattenEntry(entries[|entries| - 1])
  }

  /** The catch bodies, in declared order. */
  function FlattenCatches(catches: seq<CatchClause>): seq<Expr> {
    if catches == [] then []
    else FlattenCatches(catches[..|catches| - 1]) + FlattenCatch(catches[|catches| - 1])
  }

  function FlattenCatch(c: CatchClause): seq<Expr> {
    Flatten(c.body)
  }

  /** The expressions of a method: those of its body's statements, none when it has no body. */
  function MethodExpressions(m: MethodDecl): seq<Expr> {
    match m.body
    case None => []
    case Some(ss) => FlattenAll(ss)
  }

  // ---------------------------------------------------------------------
  // An independent description: first list the statements the traversal
  // visits, in pre-order, then keep what each visited statement emits.
  // ---------------------------------------------------------------------

  /** The statements the traversal visits from `s`, `s` first, in pre-order. */
  function Reached(s: Stmt): seq<Stmt> {
    match s
    case IfStmt(_, t, e) => [s] + Reached(t) + (if e.Some? then Reached(e.value) else [])
    case ForeachStmt(_, _, body) => [s] + Reached(body)
    case ForStmt(_, _, _, body) => [s] + Reached(body)
    case BlockStmt(ss) => [s] + ReachedAll(ss)
    case DoStmt(body, _) => [s] + Reached(body)
    case WhileStmt(_, body) => [s] + Reached(body)
    case SwitchEntryStmt(entry) => ReachedEntry(entry)
    case SwitchStmt(_, entries) => [s] + ReachedEntries(entries)
    case SynchronizedStmt(_, body) => [s] + Reached(body)
    case TryStmt(_, tryBlock, catches, fin) =>
      [s] + Reached(tryBlock) + ReachedCatches(catches) + (if fin.Some? then Reached(fin.value) else [])
    case _ => [s]
  }

  function ReachedAll(ss: seq<Stmt>): seq<Stmt> {
    if ss == [] then [] else ReachedAll(ss[..|ss| - 1]) + Reached(ss[|ss| - 1])
  }

  /** A switch entry is visited as a statement of its own, then its statements. */
  function ReachedEntry(entry: SwitchEntry): seq<Stmt> {
    [SwitchEntryStmt(entry)] + ReachedAll(entry.statements)
  }

  function ReachedEntries(entries: seq<SwitchEntry>): seq<Stmt> {
    if entries == [] then []
    else ReachedEntries(entries[..|entries| - 1]) + ReachedEntry(entries[|entries| - 1])
  }

  function ReachedCatches(catches: seq<CatchClause>): seq<Stmt> {
    if catches == [] then []
    else ReachedCatches(catches[..|catches| - 1]) + ReachedCatch(catches[|catches| - 1])
  }

  function ReachedCatch(c: CatchClause): seq<Stmt> {
    Reached(c.body)
  }

  /** What a visited statement emits by itself: an expression statement's expression or a return's value. */
  function Emit(t: Stmt): seq<Expr> {
    match t
    case ExpressionStmt(e) => [e]
    case ReturnStmt(Some(v)) => [v]
    case _ => []
  }

  function EmitAll(ts: seq<Stmt>): seq<Expr> {
    if ts == [] then [] else Emit(ts[0]) + EmitAll(ts[1..])
  }

  lemma {:induction false} EmitAllConcat(a: seq<Stmt>, b: seq<Stmt>)
    ensures EmitAll(a + b) == EmitAll(a) + EmitAll(b)
  {
    if a == [] {
      assert a + b == b;
      AppendEmpty(EmitAll(b));
    } else {
      assert (a + b)[0] == a[0];
      assert (a + b)[1..] == a[1..] + b;
      EmitAllConcat(a[1..], b);
      AppendAssoc(Emit(a[0]), EmitAll(a[1..]), EmitAll(b));
    }
  }


  /** An expression is emitted by a list of statements exactly when one of them emits it. */
  lemma {:induction false} EmitAllMembers(ts: seq<Stmt>, x: Expr)
    ensures x in EmitAll(ts) <==> exists i :: 0 <= i < |ts| && x in Emit(ts[i])
  {
    if ts != [] {
      EmitAllMembers(ts[1..], x);
      if x in EmitAll(ts[1..]) {
        var i :| 0 <= i < |ts[1..]| && x in Emit(ts[1..][i]);
        assert x in Emit(ts[i + 1]);
      }
      if exists i :: 0 <= i < |ts| && x in Emit(ts[i]) {
        var i :| 0 <= i < |ts| && x in Emit(ts[i]);
        if i > 0 {
          assert ts[1..][i - 1] == ts[i];
        }
      }
    }
  }

  lemma EmitAllCons(t: Stmt, rest: seq<Stmt>)
    ensures EmitAll([t] + rest) == Emit(t) + EmitAll(rest)
  {
    assert ([t] + rest)[1..] == rest;
  }

  lemma EmitAllSingleton(t: Stmt)
    ensures EmitAll([t]) == Emit(t)
  {
    assert [t][1..] == [];
    AppendEmpty(Emit(t));
  }

  lemma EmitAllConcat3(a: seq<Stmt>, b: seq<Stmt>, c: seq<Stmt>)
    ensures EmitAll(a + b + c) == EmitAll(a) + EmitAll(b) + EmitAll(c)
  {
    EmitAllConcat(a, b);
    EmitAllConcat(a + b, c);
  }

  lemma EmitAllConcat4(a: seq<Stmt>, b: seq<Stmt>, c: seq<Stmt>, d: seq<Stmt>)
    ensures EmitAll(a + b + c + d) == EmitAll(a) + EmitAll(b) + EmitAll(c) + EmitAll(d)
  {
    EmitAllConcat3(a, b, c);
    EmitAllConcat(a + b + c, d);
  }

  /** A statement that only descends into `body`: it emits nothing itself, then what `body` reaches. */
  lemma {:induction false} PreOrderThroughBody(s: Stmt, body: Stmt)
    requires Emit(s) == [] && Reached(s) == [s] + Reached(body)
    requires Flatten(body) == EmitAll(Reached(body))
    ensures EmitAll(Reached(s)) == Flatten(body)
  {
    EmitAllCons(s, Reached(body));
    AppendEmpty(EmitAll(Reached(body)));
  }

  /** The flattening is the pre-order list of visited statements, each replaced by what it emits. */
  lemma {:induction false} FlattenIsPreOrder(s: Stmt)
    ensures Flatten(s) == EmitAll(Reached(s))
  {
    match s
    case IfStmt(_, _, _) =>
      FlattenIfIsPreOrder(s);
    case ForeachStmt(_, _, body) =>
      FlattenIsPreOrder(body);
      PreOrderThroughBody(s, body);
    case ForStmt(_, _, _, body) =>
      FlattenIsPreOrder(body);
      PreOrderThroughBody(s, body);
    case BlockStmt(ss) =>
      FlattenAllIsPreOrder(ss);
      EmitAllCons(s, ReachedAll(ss));
      AppendEmpty(EmitAll(ReachedAll(ss)));
    case DoStmt(body, _) =>
      FlattenIsPreOrder(body);
      PreOrderThroughBody(s, body);
    case WhileStmt(_, body) =>
      FlattenIsPreOrder(body);
      PreOrderThroughBody(s, body);
    case SwitchEntryStmt(entry) =>
      FlattenEntryIsPreOrder(entry);
    case SwitchStmt(_, entries) =>
      FlattenEntriesIsPreOrder(entries);
      EmitAllCons(s, ReachedEntries(entries));
      AppendEmpty(EmitAll(ReachedEntries(entries)));
    case SynchronizedStmt(_, body) =>
      FlattenIsPreOrder(body);
      PreOrderThroughBody(s, body);
    case TryStmt(_, _, _, _) =>
      FlattenTryIsPreOrder(s);
    case _ =>
      EmitAllSingleton(s);
  }

  lemma {:induction false} FlattenIfIsPreOrder(s: Stmt)
    requires s.IfStmt?
    ensures Flatten(s) == EmitAll(Reached(s))
    decreases s, 0
  {
    var t := s.thenStmt;
    var elseReached := if s.elseStmt.Some? then Reached(s.elseStmt.value) else [];
    var elseFlat := if s.elseStmt.Some? then Flatten(s.elseStmt.value) else [];
    FlattenIsPreOrder(t);
    if s.elseStmt.Some? {
      FlattenIsPreOrder(s.elseStmt.value);
    }
    assert EmitAll(elseReached) == elseFlat;
    assert Flatten(s) == Flatten(t) + elseFlat;
    assert Reached(s) == [s] + Reached(t) + elseReached;
    EmitAllConcat3([s], Reached(t), elseReached);
    EmitAllSingleton(s);
    AppendEmpty(Flatten(t));
  }

  lemma {:induction false} FlattenTryIsPreOrder(s: Stmt)
    requires s.TryStmt?
    ensures Flatten(s) == EmitAll(Reached(s))
    decreases s, 0
  {
    var tryBlock, catches := s.tryBlock, s.catchClauses;
    var finReached := if s.finallyBlock.Some? then Reached(s.finallyBlock.value) else [];
    var finFlat := if s.finallyBlock.Some? then Flatten(s.finallyBlock.value) else [];
    FlattenIsPreOrder(tryBlock);
    FlattenCatchesIsPreOrder(catches);
    if s.finallyBlock.Some? {
      FlattenIsPreOrder(s.finallyBlock.value);
    }
    assert EmitAll(finReached) == finFlat;
    assert Flatten(s) == Flatten(tryBlock) + FlattenCatches(catches) + finFlat;
    assert Reached(s) == [s] + Reached(tryBlock) + ReachedCatches(catches) + finReached;
    EmitAllConcat4([s], Reached(tryBlock), ReachedCatches(catches), finReached);
    EmitAllSingleton(s);
    AppendEmpty(Flatten(tryBlock));
  }

  lemma {:induction false} FlattenAllIsPreOrder(ss: seq<Stmt>)
    ensures FlattenAll(ss) == EmitAll(ReachedAll(ss))
  {
    if ss != [] {
      FlattenAllIsPreOrder(ss[..|ss| - 1]);
      FlattenIsPreOrder(ss[|ss| - 1]);
      EmitAllConcat(ReachedAll(ss[..|ss| - 1]), Reached(ss[|ss| - 1]));
    }
  }

  lemma {:induction false} FlattenEntryIsPreOrder(entry: SwitchEntry)
    ensures FlattenEntry(entry) == EmitAll(ReachedEntry(entry))
  {
    FlattenAllIsPreOrder(entry.statements);
    EmitAllCons(SwitchEntryStmt(entry), ReachedAll(entry.statements));
    AppendEmpty(EmitAll(ReachedAll(entry.statements)));
  }

  lemma {:induction false} FlattenEntriesIsPreOrder(entries: seq<SwitchEntry>)
    ensures FlattenEntries(entries) == EmitAll(ReachedEntries(entries))
  {
    if entries != [] {
      var n := |entries| - 1;
      FlattenEntriesIsPreOrder(entries[..n]);
      FlattenEntryIsPreOrder(entries[n]);
      EmitAllConcat(ReachedEntries(entries[..n]), ReachedEntry(entries[n]));
    }
  }

  lemma {:induction false} FlattenCatchesIsPreOrder(catches: seq<CatchClause>)
    ensures FlattenCatches(catches) == EmitAll(ReachedCatches(catches))
  {
    if catches != [] {
      var n := |catches| - 1;
      FlattenCatchesIsPreOrder(catches[..n]);
      FlattenCatchIsPreOrder(catches[n]);
      EmitAllConcat(ReachedCatches(catches[..n]), ReachedCatch(catches[n]));
    }
  }

  lemma {:induction false} FlattenCatchIsPreOrder(c: CatchClause)
    ensures FlattenCatch(c) == EmitAll(ReachedCatch(c))
  {
    FlattenIsPreOrder(c.body);
  }

  /**
   * Both directions: an expression is collected from `s` exactly when some
   * statement the traversal visits is an expression statement of it or a
   * return of it.
   */
  lemma FlattenMembers(s: Stmt, x: Expr)
    ensures x in Flatten(s) <==>
      exists i :: 0 <= i < |Reached(s)| && (Reached(s)[i] == ExpressionStmt(x) || Reached(s)[i] == ReturnStmt(Some(x)))
  {
    FlattenIsPreOrder(s);
    EmitAllMembers(Reached(s), x);
    forall t: Stmt ensures x in Emit(t) <==> (t == ExpressionStmt(x) || t == ReturnStmt(Some(x))) {
    }
  }

  /** A method's expressions are the pre-order emissions of its body's statements; none without a body. */
  lemma MethodExpressionsIsPreOrder(m: MethodDecl)
    ensures m.body.None? ==> MethodExpressions(m) == []
    ensures m.body.Some? ==> MethodExpressions(m) == EmitAll(ReachedAll(m.body.value))
  {
    if m.body.Some? {
      FlattenAllIsPreOrder(m.body.value);
    }
  }

  /** The statement kinds the traversal does not handle contribute nothing, whatever they contain. */
  lemma IgnoredKindsContributeNothing(s: Stmt)
    requires s.ThrowStmt? || s.LabeledStmt? || s.AssertStmt? || s.BreakStmt? || s.ContinueStmt? || s.EmptyStmt?
    ensures Flatten(s) == [] && Reached(s) == [s]
  {
  }

  /** `{ if (cond) { x = 1; } else { y = 2; } }` flattens to the two assignments, then-branch first. */
  lemma IfElseExample(cond: Expr, x1: Expr, y2: Expr)
    ensures FlattenAll([IfStmt(cond, BlockStmt([ExpressionStmt(x1)]), Some(BlockStmt([ExpressionStmt(y2)])))])
      == [x1, y2]
  {
    SingletonFlattenAll(ExpressionStmt(x1));
    SingletonFlattenAll(ExpressionStmt(y2));
    SingletonFlattenAll(IfStmt(cond, BlockStmt([ExpressionStmt(x1)]), Some(BlockStmt([ExpressionStmt(y2)]))));
  }

  lemma SingletonFlattenAll(s: Stmt)
    ensures FlattenAll([s]) == Flatten(s)
  {
    assert [s][..0] == [];
  }
}

/**
 * What `getVariableDeclarations` returns: the declarators of the
 * variable-declaration expressions among a method's flattened expressions,
 * in that order. No further traversal is made.
 */
module DeclarationExtractor {
  import opened JavaAst
  import opened StatementFlattener
  import opened Collections

  /** The declarators of the variable declarations in `xs`; other expressions add nothing. */
  function Declarators(xs: seq<Expr>): seq<Declarator> {
    if xs == [] then []
    else
      var last := xs[|xs| - 1];
      Declarators(xs[..|xs| - 1]) + (if last.VariableDeclarationExpr? then last.variables else [])
  }

  function MethodVariables(m: MethodDecl): seq<Declarator> {
    Declarators(MethodExpressions(m))
  }

  lemma {:induction false} DeclaratorsConcat(a: seq<Expr>, b: seq<Expr>)
    ensures Declarators(a + b) == Declarators(a) + Declarators(b)
  {
    if b != [] {
      var n := |b| - 1;
      assert (a + b)[..|a + b| - 1] == a + b[..n];
      assert (a + b)[|a + b| - 1] == b[n];
      DeclaratorsConcat(a, b[..n]);
      AppendAssoc(Declarators(a), Declarators(b[..n]), if b[n].VariableDeclarationExpr? then b[n].variables else []);
    } else {
      assert a + b == a;
      AppendEmpty(Declarators(a));
    }
  }


  /** Both directions: a declarator is returned exactly when some variable declaration in `xs` holds it. */
  lemma {:induction false} DeclaratorsMembers(xs: seq<Expr>, d: Declarator)
    ensures d in Declarators(xs) <==>
      exists i :: 0 <= i < |xs| && xs[i].VariableDeclarationExpr? && d in xs[i].variables
  {
    if xs != [] {
      var n := |xs| - 1;
      DeclaratorsMembers(xs[..n], d);
      if exists i :: 0 <= i < |xs| && xs[i].VariableDeclarationExpr? && d in xs[i].variables {
        var i :| 0 <= i < |xs| && xs[i].VariableDeclarationExpr? && d in xs[i].variables;
        if i < n {
          assert xs[..n][i] == xs[i];
        }
      }
    }
  }

  /** A declarator is among a method's variables exactly when one of its flattened expressions declares it. */
  lemma MethodVariablesMembers(m: MethodDecl)
    ensures forall d :: d in MethodVariables(m) <==>
      exists i :: 0 <= i < |MethodExpressions(m)| && MethodExpressions(m)[i].VariableDeclarationExpr?
        && d in MethodExpressions(m)[i].variables
  {
    forall d: Declarator
      ensures d in MethodVariables(m) <==>
        exists i :: 0 <= i < |MethodExpressions(m)| && MethodExpressions(m)[i].VariableDeclarationExpr?
          && d in MethodExpressions(m)[i].variables
    {
      DeclaratorsMembers(MethodExpressions(m), d);
    }
  }

  /** The number of declarators is the sum of the sizes of the declarations' lists. */
  lemma {:induction false} DeclaratorsCount(xs: seq<Expr>)
    ensures |Declarators(xs)| == DeclaredCount(xs)
  {
    if xs != [] {
      DeclaratorsCount(xs[1..]);
      assert xs == [xs[0]] + xs[1..];
      DeclaratorsConcat([xs[0]], xs[1..]);
      assert [xs[0]][..0] == [];
    }
  }

  /** How many variables the declarations in `xs` declare, counted from the front. */
  function DeclaredCount(xs: seq<Expr>): nat {
    if xs == [] then 0
    else (if xs[0].VariableDeclarationExpr? then |xs[0].variables| else 0) + DeclaredCount(xs[1..])
  }

  /** `{ int a, b; foo(); }` yields the two declarators `a`, `b`; the call statement is ignored. */
  lemma TwoDeclaratorsExample(a: Declarator, b: Declarator, foo: Expr)
    requires foo.MethodCallExpr?
    ensures MethodVariables(MethodDecl("m", {}, [], "void",
      Some([ExpressionStmt(VariableDeclarationExpr([a, b])), ExpressionStmt(foo)])))
      == [a, b]
  {
    var ss := [ExpressionStmt(VariableDeclarationExpr([a, b])), ExpressionStmt(foo)];
    assert ss[..1] == [ss[0]];
    SingletonFlattenAll(ss[0]);
    var xs := [VariableDeclarationExpr([a, b]), foo];
    assert FlattenAll(ss) == xs;
    assert xs[..1] == [xs[0]];
    assert [xs[0]][..0] == [];
    assert Declarators([xs[0]]) == [a, b];
    assert Declarators(xs) == [a, b];
    var m := MethodDecl("m", {}, [], "void", Some(ss));
    assert MethodExpressions(m) == xs;
  }
}
