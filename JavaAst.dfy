/**
 * The part of a JavaParser syntax tree that the source tools read.
 *
 * The tree is produced by an external parser and is never changed by the
 * tools, so every node is a value. Statements and expressions are mutually
 * recursive: a lambda owns a statement, a statement owns expressions.
 * Sub-statements that the parser always produces as blocks (a try block, a
 * catch body, a synchronized body) are typed `Stmt` here; the parser fills
 * them with a `BlockStmt`.
 */
module JavaAst {

  datatype Option<+T> = None | Some(value: T)

  /** The modifier keywords a declaration may carry. */
  datatype Modifier =
    | Public | Protected | Private | Abstract | Static | Final
    | Transient | Volatile | Synchronized | Native | Strictfp | Default

  /** One `name = initializer` binding of a (possibly multi-variable) declaration. */
  datatype Declarator = Declarator(name: string, typeName: string, initializer: Option<Expr>)

  /**
   * Expressions. Only the two kinds the tools inspect are spelled out; a
   * lambda is kept because it is how statements occur inside expressions.
   * Every other kind (names, literals, assignments, operators, ...) is an
   * `OtherExpr` with its sub-expressions in the order the library's visitor
   * adapter visits them: for `c ? a : b` the condition, then `b`, then `a`;
   * for `xs[i]` the index, then `xs`.
   */
  datatype Expr =
    | VariableDeclarationExpr(variables: seq<Declarator>)
    | MethodCallExpr(scope: Option<Expr>, name: string, arguments: seq<Expr>)
    | LambdaExpr(parameters: seq<string>, body: Stmt)
    | OtherExpr(kind: string, children: seq<Expr>)

  /**
   * Statements. The first twelve kinds are the ones the flattener handles;
   * the rest stand for the kinds it ignores.
   */
  datatype Stmt =
    | ExpressionStmt(expression: Expr)
    | IfStmt(condition: Expr, thenStmt: Stmt, elseStmt: Option<Stmt>)
    | ForeachStmt(variable: Expr, iterable: Expr, body: Stmt)
    | ForStmt(initialization: seq<Expr>, compare: Option<Expr>, update: seq<Expr>, body: Stmt)
    | BlockStmt(statements: seq<Stmt>)
    | DoStmt(body: Stmt, condition: Expr)
    | WhileStmt(condition: Expr, body: Stmt)
    | ReturnStmt(value: Option<Expr>)
    | SwitchEntryStmt(entry: SwitchEntry)
    | SwitchStmt(selector: Expr, entries: seq<SwitchEntry>)
    | SynchronizedStmt(lock: Expr, body: Stmt)
    | TryStmt(resources: seq<Expr>, tryBlock: Stmt, catchClauses: seq<CatchClause>, finallyBlock: Option<Stmt>)
    | ThrowStmt(thrown: Expr)
    | LabeledStmt(labelName: string, statement: Stmt)
    | AssertStmt(check: Expr, message: Option<Expr>)
    | BreakStmt(target: Option<string>)
    | ContinueStmt(target: Option<string>)
    | EmptyStmt

  /** One `case`/`default` entry of a switch: its label (absent for `default`) and its statements. */
  datatype SwitchEntry = SwitchEntry(caseLabel: Option<Expr>, statements: seq<Stmt>)

  datatype Parameter = Parameter(name: string, typeName: string)

  datatype CatchClause = CatchClause(parameter: Parameter, body: Stmt)

  /** A method; `body` holds the statements of its block, absent for abstract and interface methods. */
  datatype MethodDecl = MethodDecl(
    name: string,
    modifiers: set<Modifier>,
    parameters: seq<Parameter>,
    returnType: string,
    body: Option<seq<Stmt>>)

  datatype ClassDecl = ClassDecl(
    name: string,
    modifiers: set<Modifier>,
    isInterface: bool,
    methods: seq<MethodDecl>)

  /** A top-level type declaration: a class or interface, an enum or an annotation type. */
  datatype TypeDecl =
    | ClassOrInterfaceDeclaration(decl: ClassDecl)
    | EnumDeclaration(enumName: string, enumModifiers: set<Modifier>)
    | AnnotationDeclaration(annotationName: string, annotationModifiers: set<Modifier>)

  /** One parsed source file: an optional package name and its type declarations in source order. */
  datatype CompilationUnit = CompilationUnit(packageName: Option<string>, types: seq<TypeDecl>)
}
