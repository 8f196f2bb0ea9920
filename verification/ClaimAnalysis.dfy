/**
 * The static check of apps/api-e2e/src/support/shipped-function.ts: whether a claim (a lock that
 * must be taken first) runs before a write on every path to it. The source reads a syntax tree;
 * here is that tree, cut down to the statements the check tells apart.
 */
module ClaimAnalysis {
  import opened Prelude

  /**
   * The text of an expression, with the bodies of nested functions blanked: whether it mentions a
   * claim itself, and the functions of the file that it calls, in the order it calls them.
   */
  datatype Expr = Expr(direct: bool, calls: seq<string>)

  /**
   * What a loop evaluates ahead of its first round, unless the body comes first, as in `do`; what it
   * evaluates after each round; and the labels it stands under.
   */
  datatype Head = Head(first: Expr, again: Expr, bodyFirst: bool, labels: set<string>)

  datatype Stmt =
    | Leaf(text: Expr)                     // an expression or a variable declaration
    | FunctionDeclaration(text: Expr)      // `function f() { … }` in a statement list
    | Return(text: Expr)
    | Throw(text: Expr)
    | Break(target: Option<string>)
    | Continue(target: Option<string>)
    | Block(body: seq<Stmt>)
    | If(test: Expr, thenArm: Stmt, elseArm: Option<Stmt>)
    | Try(block: Stmt, handler: Option<Stmt>, finalizer: Option<Stmt>)
    | Loop(head: Head, inner: Stmt)        // for, for-of, while and do
    | Switch(subject: Expr, clauses: seq<Stmt>)  // its clauses are `case …:` and `default:`
    | Clause(isDefault: bool, body: seq<Stmt>)
    | Labeled(name: string, inner: Stmt)

  /** The functions a file declares. Their names are taken to be unique in it. */
  type File = map<string, Stmt>

  /** Whether the claim pattern, widened with the names in `known`, matches a text. */
  predicate Mentions(text: Expr, known: set<string>) {
    text.direct || exists name <- text.calls :: name in known
  }

  /** Whether control can leave `s` without reaching what follows it. A throw does not count. */
  predicate CanLeaveEarly(s: Stmt) {
    match s
    case Return(_) => true
    case Break(_) => true
    case Continue(_) => true
    case Block(body) => exists t <- body :: CanLeaveEarly(t)
    case Clause(_, body) => exists t <- body :: CanLeaveEarly(t)
    case Switch(_, clauses) => exists t <- clauses :: CanLeaveEarly(t)
    case If(_, a, b) => CanLeaveEarly(a) || (b.Some? && CanLeaveEarly(b.value))
    case Try(a, h, f) =>
      CanLeaveEarly(a) || (h.Some? && CanLeaveEarly(h.value)) || (f.Some? && CanLeaveEarly(f.value))
    case Loop(_, t) => CanLeaveEarly(t)
    case Labeled(_, t) => CanLeaveEarly(t)
    case Leaf(_) => false
    case FunctionDeclaration(_) => false
    case Throw(_) => false
  }

  /** Whether every path through `s` takes the claim, as the source reads it. */
  predicate ClaimsOnEveryPath(s: Stmt, known: set<string>)
    decreases s, 1
  {
    match s
    case Block(body) => ListClaims(body, known)
    case If(_, a, b) => b.Some? && ClaimsOnEveryPath(a, known) && ClaimsOnEveryPath(b.value, known)
    case Try(a, h, _) => ClaimsOnEveryPath(a, known) && (h.None? || ClaimsOnEveryPath(h.value, known))
    case Loop(_, _) => false
    case Switch(_, _) => false
    case Labeled(_, _) => false
    case Clause(_, _) => false
    case Break(_) => false
    case Continue(_) => false
    case Leaf(text) => Mentions(text, known)
    case FunctionDeclaration(text) => Mentions(text, known)
    case Return(text) => Mentions(text, known)
    case Throw(text) => Mentions(text, known)
  }

  /** In order, and no further than the first statement that can leave. */
  predicate ListClaims(body: seq<Stmt>, known: set<string>)
    decreases body, 0
  {
    body != [] && (ClaimsOnEveryPath(body[0], known) || (!CanLeaveEarly(body[0]) && ListClaims(body[1..], known)))
  }

  /** The statement list a node carries, if it carries one. */
  function StatementList(s: Stmt): Option<seq<Stmt>> {
    match s
    case Block(body) => Some(body)
    case Clause(_, body) => Some(body)
    case _ => None
  }

  predicate HasDefault(clauses: seq<Stmt>) {
    exists t <- clauses :: t.Clause? && t.isDefault
  }

  /** The statements directly inside a statement, numbered. What a loop evaluates after a round counts as one. */
  function Child(s: Stmt, i: nat): Option<Stmt> {
    match s
    case Block(body) => if i < |body| then Some(body[i]) else None
    case Clause(_, body) => if i < |body| then Some(body[i]) else None
    case Switch(_, clauses) => if i < |clauses| then Some(clauses[i]) else None
    case If(_, a, b) => if i == 0 then Some(a) else if i == 1 then b else None
    case Try(a, h, f) => if i == 0 then Some(a) else if i == 1 then h else if i == 2 then f else None
    case Loop(head, t) => if i == 0 then Some(t) else if i == 1 then Some(Leaf(head.again)) else None
    case Labeled(_, t) => if i == 0 then Some(t) else None
    case _ => None
  }

  /** The node that `path` leads to from `s`: the node whose parents the source walks up through. */
  function Node(s: Stmt, path: seq<nat>): Option<Stmt>
    decreases |path|
  {
    if path == [] then Some(s)
    else if Child(s, path[0]).None? then None
    else Node(Child(s, path[0]).value, path[1..])
  }

  /** Whether a statement ahead of number `i` of `s`'s list claims on every path. */
  predicate PrecededByClaim(s: Stmt, i: nat, known: set<string>) {
    StatementList(s).Some? &&
    exists j :: 0 <= j < i && j < |StatementList(s).value| && ClaimsOnEveryPath(StatementList(s).value[j], known)
  }

  /** Whether a claim precedes the node at `path`, in some list between it and `s`. */
  predicate Dominated(s: Stmt, path: seq<nat>, known: set<string>)
    decreases |path|
  {
    path != [] && Child(s, path[0]).Some? &&
    (PrecededByClaim(s, path[0], known) || Dominated(Child(s, path[0]).value, path[1..], known))
  }

  lemma {:induction false} NodeSplits(s: Stmt, path: seq<nat>, k: nat)
    requires k < |path| && Node(s, path).Some?
    ensures Node(s, path[..k]).Some?
    ensures Child(Node(s, path[..k]).value, path[k]).Some?
    decreases |path|
  {
    if k > 0 {
      assert path[1..][..k - 1] == path[..k][1..];
      NodeSplits(Child(s, path[0]).value, path[1..], k - 1);
    }
  }

  /** Dominance asks each list on the way from the node to the scope. */
  lemma {:induction false} DominatedSomewhere(s: Stmt, path: seq<nat>, known: set<string>)
    requires Node(s, path).Some?
    ensures Dominated(s, path, known) <==>
            exists k :: 0 <= k < |path| && Node(s, path[..k]).Some?
                        && PrecededByClaim(Node(s, path[..k]).value, path[k], known)
    decreases |path|
  {
    if path != [] {
      var t := Child(s, path[0]).value;
      DominatedSomewhere(t, path[1..], known);
      assert path[..0] == [];
      forall k | 1 <= k < |path| ensures Node(s, path[..k]) == Node(t, path[1..][..k - 1]) {
        assert path[..k][1..] == path[1..][..k - 1];
      }
      if Dominated(t, path[1..], known) {
        var k :| 0 <= k < |path[1..]| && Node(t, path[1..][..k]).Some?
                 && PrecededByClaim(Node(t, path[1..][..k]).value, path[1..][k], known);
        assert PrecededByClaim(Node(s, path[..k + 1]).value, path[k + 1], known);
      }
      if k :| 1 <= k < |path| && Node(s, path[..k]).Some?
              && PrecededByClaim(Node(s, path[..k]).value, path[k], known) {
        assert PrecededByClaim(Node(t, path[1..][..k - 1]).value, path[1..][k - 1], known);
      }
    }
  }

  /** `dominatedByClaim`: walks out from the node to the scope, one parent at a time. */
  method DominatedByClaim(scope: Stmt, path: seq<nat>, known: set<string>) returns (dominated: bool)
    requires Node(scope, path).Some?
    ensures dominated <==> Dominated(scope, path, known)
  {
    DominatedSomewhere(scope, path, known);
    var depth := |path|;
    while depth > 0
      invariant 0 <= depth <= |path|
      invariant forall k :: depth <= k < |path| && Node(scope, path[..k]).Some? ==>
                  !PrecededByClaim(Node(scope, path[..k]).value, path[k], known)
    {
      depth := depth - 1;
      NodeSplits(scope, path, depth);
      var parent := Node(scope, path[..depth]).value;
      var statements := StatementList(parent);
      if statements.Some? {
        for j := 0 to path[depth]
          invariant forall i :: 0 <= i < j ==> !ClaimsOnEveryPath(statements.value[i], known)
        {
          if ClaimsOnEveryPath(statements.value[j], known) {
            assert PrecededByClaim(parent, path[depth], known);
            return true;
          }
        }
      }
    }
    dominated := false;
  }
}
