/**
 * The parse-tree to syntax-tree collapser (Pengo/src/Collapse.cpp).  The source indexes
 * children without checking and has no default case in deriveStatement; the model turns
 * both into errors.
 */
module Collapse {
  import opened Wrappers
  import opened Collections
  import opened Tokens
  import opened ParserTables
  import opened ParseTree
  import Ast

  datatype CollapseError =
    | MissingChild(kind: NodeType)
    | NotAStatement(kind: NodeType)

  /** deriveToken: the token of the leaf reached by following first children, which is the
      first token the node spans; a node whose first-child path ends at a childless
      nonterminal has none. */
  function DeriveToken(n: Node): (r: Result<Token, CollapseError>)
    ensures n.terminal ==> r == Ok(n.token)
    ensures r.Ok? ==> Leaves(n) != [] && r.value == Leaves(n)[0]
    ensures r.Err? ==> r.error.MissingChild?
  {
    if n.terminal then Ok(n.token)
    else if n.children == [] then Err(MissingChild(n.kind))
    else DeriveToken(n.children[0])
  }

  /** deriveExpression: a Term or Factor with three children is a binary expression, a
      Literal or Identifier node becomes a leaf holding its token, and every other node
      stands for its first child. */
  function DeriveExpression(n: Node): (r: Result<Ast.Expression, CollapseError>)
    ensures r.Ok? ==> !r.value.Call?
  {
    if n.kind in {NodeType.Term, NodeType.Factor} && |n.children| == 3 then
      var left :- DeriveExpression(n.children[0]);
      var op :- DeriveToken(n.children[1]);
      var right :- DeriveExpression(n.children[2]);
      Ok(Ast.Binary(left, op, right))
    else if n.kind == NodeType.Literal then Ok(Ast.Literal(n.token))
    else if n.kind == NodeType.Identifier then Ok(Ast.Var(n.token))
    else if n.children == [] then Err(MissingChild(n.kind))
    else DeriveExpression(n.children[0])
  }

  /** deriveStatement: only expression, print and declaration nodes make statements. */
  function DeriveStatement(n: Node): (r: Result<Ast.Statement, CollapseError>)
    ensures r.Ok? ==> !r.value.BlockStatement?
  {
    match n.kind
    case Expression =>
      if n.children == [] then Err(MissingChild(n.kind))
      else var e :- DeriveExpression(n.children[0]); Ok(Ast.ExpressionStatement(e))
    case PrintStatement =>
      if n.children == [] then Err(MissingChild(n.kind))
      else var e :- DeriveExpression(n.children[0]); Ok(Ast.PrintStatement(e))
    case VarDeclareStatement =>
      if |n.children| < 2 then Err(MissingChild(n.kind))
      else
        var name :- DeriveToken(n.children[0]);
        var e :- DeriveExpression(n.children[1]);
        Ok(Ast.VarDeclareStatement(name, e))
    case _ => Err(NotAStatement(n.kind))
  }

  /** deriveStatement succeeds exactly on the three statement node types with the children
      they need, and each keeps its expression (and name) as derived. */
  lemma {:induction false} DeriveStatementCases(n: Node)
    ensures DeriveStatement(n).Ok? <==>
      (match n.kind
       case Expression => n.children != [] && DeriveExpression(n.children[0]).Ok?
       case PrintStatement => n.children != [] && DeriveExpression(n.children[0]).Ok?
       case VarDeclareStatement =>
         |n.children| >= 2 && DeriveToken(n.children[0]).Ok? && DeriveExpression(n.children[1]).Ok?
       case _ => false)
    ensures DeriveStatement(n).Ok? && n.kind == NodeType.Expression ==>
      DeriveStatement(n).value == Ast.ExpressionStatement(DeriveExpression(n.children[0]).value)
    ensures DeriveStatement(n).Ok? && n.kind == NodeType.PrintStatement ==>
      DeriveStatement(n).value == Ast.PrintStatement(DeriveExpression(n.children[0]).value)
    ensures DeriveStatement(n).Ok? && n.kind == NodeType.VarDeclareStatement ==>
      DeriveStatement(n).value ==
        Ast.VarDeclareStatement(DeriveToken(n.children[0]).value, DeriveExpression(n.children[1]).value)
  {
  }

  /** A parse tree of an expression: literal and identifier nodes are token leaves, a Term or
      Factor with three children has an operator leaf in the middle, and every other node has
      exactly one child. */
  predicate ExprShaped(n: Node) {
    if n.kind in {NodeType.Literal, NodeType.Identifier} then n.terminal
    else if n.kind in {NodeType.Term, NodeType.Factor} && |n.children| == 3 then
      && !n.terminal
      && ExprShaped(n.children[0])
      && n.children[1].terminal
      && ExprShaped(n.children[2])
    else !n.terminal && |n.children| == 1 && ExprShaped(n.children[0])
  }

  /** Collapsing an expression tree drops no token and invents none: the expression's tokens,
      read left to right, are the leaves of the tree.  In particular the wrapper nodes
      (Expression, Primary, Grouping, one-child Term and Factor) leave nothing behind. */
  lemma {:induction false} CollapseKeepsTokens(n: Node)
    requires ExprShaped(n)
    ensures DeriveExpression(n).Ok? && Ast.ExprTokens(DeriveExpression(n).value) == Leaves(n)
    decreases n
  {
    if n.kind in {NodeType.Literal, NodeType.Identifier} {
    } else if n.kind in {NodeType.Term, NodeType.Factor} && |n.children| == 3 {
      CollapseKeepsTokens(n.children[0]);
      CollapseKeepsTokens(n.children[2]);
      LeavesOfThree(n.children);
    } else {
      CollapseKeepsTokens(n.children[0]);
      LeavesOfOne(n.children);
    }
  }

  lemma LeavesOfThree(cs: seq<Node>)
    requires |cs| == 3
    ensures LeavesOf(cs) == Leaves(cs[0]) + Leaves(cs[1]) + Leaves(cs[2])
  {
    assert LeavesOf(cs) == Leaves(cs[0]) + LeavesOf(cs[1..]);
    assert cs[1..][0] == cs[1] && cs[1..][1..] == cs[2..];
    assert LeavesOf(cs[1..]) == Leaves(cs[1]) + LeavesOf(cs[2..]);
    assert cs[2..][0] == cs[2] && cs[2..][1..] == cs[3..] == [];
    assert LeavesOf(cs[2..]) == Leaves(cs[2]);
  }

  lemma LeavesOfOne(cs: seq<Node>)
    requires |cs| == 1
    ensures LeavesOf(cs) == Leaves(cs[0])
  {
    assert LeavesOf(cs) == Leaves(cs[0]) + LeavesOf(cs[1..]);
  }

  /** The Statement nodes of a tree in document order, not looking inside a Statement. */
  function Outermost(n: Node): (r: seq<Node>)
    ensures forall i :: 0 <= i < |r| ==> r[i].kind == NodeType.Statement
  {
    if n.kind == NodeType.Statement then [n] else OutermostOf(n.children)
  }

  function OutermostOf(ns: seq<Node>): (r: seq<Node>)
    ensures forall i :: 0 <= i < |r| ==> r[i].kind == NodeType.Statement
  {
    if ns == [] then [] else OutermostOf(ns[..|ns| - 1]) + Outermost(ns[|ns| - 1])
  }

  lemma {:induction false} OutermostOfAppend(a: seq<Node>, b: seq<Node>)
    ensures OutermostOf(a + b) == OutermostOf(a) + OutermostOf(b)
    decreases |b|
  {
    if b == [] {
      assert a + b == a;
    } else {
      assert (a + b)[..|a + b| - 1] == a + b[..|b| - 1];
      OutermostOfAppend(a, b[..|b| - 1]);
    }
  }

  /** The statement of each Statement node (its first child derived), in order; the first
      failure in that order is the result otherwise. */
  function DeriveAll(ns: seq<Node>): Result<seq<Ast.Statement>, CollapseError> {
    if ns == [] then Ok([])
    else
      var init :- DeriveAll(ns[..|ns| - 1]);
      var last := ns[|ns| - 1];
      if last.children == [] then Err(MissingChild(last.kind))
      else
        var s :- DeriveStatement(last.children[0]);
        Ok(init + [s])
  }

  /** The statement one Statement node contributes. */
  function StatementOf(n: Node): Result<Ast.Statement, CollapseError> {
    if n.children == [] then Err(MissingChild(n.kind)) else DeriveStatement(n.children[0])
  }

  lemma {:induction false} DeriveAllOk(ns: seq<Node>)
    ensures DeriveAll(ns).Ok? <==> forall i :: 0 <= i < |ns| ==> StatementOf(ns[i]).Ok?
    ensures DeriveAll(ns).Ok? ==>
      && |DeriveAll(ns).value| == |ns|
      && forall i :: 0 <= i < |ns| ==> DeriveAll(ns).value[i] == StatementOf(ns[i]).value
  {
    DeriveAllSucceeds(ns);
    DeriveAllValues(ns);
  }

  lemma DeriveAllSucceeds(ns: seq<Node>)
    ensures DeriveAll(ns).Ok? <==> forall i :: 0 <= i < |ns| ==> StatementOf(ns[i]).Ok?
  {
    DeriveAllValues(ns);
    if forall i :: 0 <= i < |ns| ==> StatementOf(ns[i]).Ok? {
      EveryStatementDerives(ns);
    }
  }

  lemma {:induction false} EveryStatementDerives(ns: seq<Node>)
    requires forall i :: 0 <= i < |ns| ==> StatementOf(ns[i]).Ok?
    ensures DeriveAll(ns).Ok?
    decreases |ns|
  {
    if ns != [] {
      var n := |ns| - 1;
      assert forall i :: 0 <= i < n ==> ns[..n][i] == ns[i];
      EveryStatementDerives(ns[..n]);
    }
  }

  lemma {:induction false} DeriveAllValues(ns: seq<Node>)
    ensures DeriveAll(ns).Ok? ==>
      && |DeriveAll(ns).value| == |ns|
      && forall i :: 0 <= i < |ns| ==> Ok(DeriveAll(ns).value[i]) == StatementOf(ns[i])
    decreases |ns|
  {
    if ns != [] && DeriveAll(ns).Ok? {
      var n := |ns| - 1;
      DeriveAllValues(ns[..n]);
      var v, v0 := DeriveAll(ns).value, DeriveAll(ns[..n]).value;
      assert v == v0 + [StatementOf(ns[n]).value];
      forall i | 0 <= i < |ns|
        ensures Ok(v[i]) == StatementOf(ns[i])
      {
        if i < n {
          assert ns[..n][i] == ns[i];
        }
      }
    }
  }

  /** When every node derives to the statement at its own index, those are the result. */
  lemma {:induction false} DeriveAllExact(ns: seq<Node>, out: seq<Ast.Statement>)
    requires |out| == |ns|
    requires forall i :: 0 <= i < |ns| ==> StatementOf(ns[i]) == Ok(out[i])
    ensures DeriveAll(ns) == Ok(out)
    decreases |ns|
  {
    if ns != [] {
      var n := |ns| - 1;
      DeriveAllExact(ns[..n], out[..n]);
      assert out == out[..n] + [out[n]];
    }
  }

  function Size(n: Node): nat {
    1 + SizeOf(n.children)
  }

  function SizeOf(ns: seq<Node>): nat {
    if ns == [] then 0 else SizeOf(ns[..|ns| - 1]) + Size(ns[|ns| - 1])
  }

  lemma {:induction false} SizeOfAppend(a: seq<Node>, b: seq<Node>)
    ensures SizeOf(a + b) == SizeOf(a) + SizeOf(b)
    decreases |b|
  {
    if b == [] {
      assert a + b == a;
    } else {
      assert (a + b)[..|a + b| - 1] == a + b[..|b| - 1];
      SizeOfAppend(a, b[..|b| - 1]);
    }
  }

  /** Taking a Statement node off the top of the stack moves it to the found nodes. */
  lemma {:induction false} PopStatement(all: seq<Node>, rest: seq<Node>, next: Node, nodes: seq<Node>)
    requires next.kind == NodeType.Statement
    requires all == OutermostOf(rest + [next]) + Reverse(nodes)
    ensures all == OutermostOf(rest) + Reverse(nodes + [next])
    ensures all[|OutermostOf(rest)|] == next
    ensures SizeOf(rest) < SizeOf(rest + [next])
  {
    assert (rest + [next])[..|rest|] == rest;
    ReverseAppend(nodes, [next]);
  }

  /** Replacing any other node on top of the stack by its children keeps what is left to
      find, and shrinks the stack's total size. */
  lemma {:induction false} PopOther(all: seq<Node>, rest: seq<Node>, next: Node, nodes: seq<Node>)
    requires next.kind != NodeType.Statement
    requires all == OutermostOf(rest + [next]) + Reverse(nodes)
    ensures all == OutermostOf(rest + next.children) + Reverse(nodes)
    ensures SizeOf(rest + next.children) < SizeOf(rest + [next])
  {
    assert (rest + [next])[..|rest|] == rest;
    OutermostOfAppend(rest, next.children);
    SizeOfAppend(rest, next.children);
  }

  /** The found statements, reversed, are the derivation of the Statement nodes in order. */
  lemma {:induction false} Finish(all: seq<Node>, nodes: seq<Node>, found: seq<Ast.Statement>)
    requires all == Reverse(nodes) && |found| == |nodes|
    requires forall i :: 0 <= i < |nodes| ==> StatementOf(nodes[i]) == Ok(found[i])
    ensures DeriveAll(all) == Ok(Reverse(found))
  {
    ReversedPairs(nodes, found);
    DeriveAllExact(all, Reverse(found));
  }

  /** Reversing both lists keeps each node paired with its statement. */
  lemma ReversedPairs(nodes: seq<Node>, found: seq<Ast.Statement>)
    requires |found| == |nodes|
    requires forall i :: 0 <= i < |nodes| ==> StatementOf(nodes[i]) == Ok(found[i])
    ensures forall i :: 0 <= i < |nodes| ==> StatementOf(Reverse(nodes)[i]) == Ok(Reverse(found)[i])
  {
    var n := |nodes|;
    forall i | 0 <= i < n
      ensures StatementOf(Reverse(nodes)[i]) == Ok(Reverse(found)[i])
    {
      assert Reverse(nodes)[i] == nodes[n - 1 - i];
    }
  }

  /** One underivable Statement node makes the whole derivation fail. */
  lemma {:induction false} Failing(all: seq<Node>, k: nat)
    requires k < |all| && StatementOf(all[k]).Err?
    ensures DeriveAll(all).Err?
  {
    DeriveAllSucceeds(all);
  }

  /** The walk's invariant: the Statement nodes still to be found on the stack, followed by
      the ones already found (most recent first), are all of them, and each found node
      derived to the statement recorded for it. */
  ghost predicate Collected(all: seq<Node>, stack: seq<Node>, found: seq<Ast.Statement>, nodes: seq<Node>) {
    && all == OutermostOf(stack) + Reverse(nodes)
    && |found| == |nodes|
    && forall i :: 0 <= i < |nodes| ==> StatementOf(nodes[i]) == Ok(found[i])
  }

  /** One iteration of the walk: the top node leaves the stack; a Statement node is derived
      (moving to the found nodes, or ending the walk with its error), any other node is
      replaced by its children. */
  method WalkStep(ghost all: seq<Node>, stack: seq<Node>, found: seq<Ast.Statement>, ghost nodes: seq<Node>)
    returns (stack': seq<Node>, found': seq<Ast.Statement>, ghost nodes': seq<Node>, failed: Option<CollapseError>)
    requires stack != [] && Collected(all, stack, found, nodes)
    ensures failed.Some? ==> DeriveAll(all).Err?
    ensures failed.None? ==> Collected(all, stack', found', nodes') && SizeOf(stack') < SizeOf(stack)
  {
    var next := stack[|stack| - 1];
    var rest := stack[..|stack| - 1];
    assert stack == rest + [next];
    PopStatementOrOther(all, rest, next, nodes);
    if next.kind == NodeType.Statement {
      var s := StatementOf(next);
      if s.Err? {
        Failing(all, |OutermostOf(rest)|);
        return stack, found, nodes, Some(s.error);
      }
      stack', found', nodes', failed := rest, found + [s.value], nodes + [next], None;
    } else {
      stack', found', nodes', failed := rest + next.children, found, nodes, None;
    }
  }

  /** The two ways the top node leaves the stack, side by side. */
  lemma PopStatementOrOther(all: seq<Node>, rest: seq<Node>, next: Node, nodes: seq<Node>)
    requires all == OutermostOf(rest + [next]) + Reverse(nodes)
    ensures next.kind == NodeType.Statement ==>
      && all == OutermostOf(rest) + Reverse(nodes + [next])
      && all[|OutermostOf(rest)|] == next
      && SizeOf(rest) < SizeOf(rest + [next])
    ensures next.kind != NodeType.Statement ==>
      && all == OutermostOf(rest + next.children) + Reverse(nodes)
      && SizeOf(rest + next.children) < SizeOf(rest + [next])
  {
    if next.kind == NodeType.Statement {
      PopStatement(all, rest, next, nodes);
    } else {
      PopOther(all, rest, next, nodes);
    }
  }

  lemma CollectDone(all: seq<Node>, found: seq<Ast.Statement>, nodes: seq<Node>)
    requires Collected(all, [], found, nodes)
    ensures DeriveAll(all) == Ok(Reverse(found))
  {
    assert all == Reverse(nodes);
    Finish(all, nodes, found);
  }

  /** collapseParseTree: an explicit stack visits the tree right to left, turning each
      Statement node it meets into a statement without looking inside it; the list is then
      reversed.  The result is the statements of the outermost Statement nodes in document
      order, and it fails exactly when one of them cannot be derived. */
  method CollapseParseTree(root: Node) returns (r: Result<seq<Ast.Statement>, CollapseError>)
    ensures r.Ok? <==> DeriveAll(Outermost(root)).Ok?
    ensures r.Ok? ==> r == DeriveAll(Outermost(root))
  {
    ghost var all := Outermost(root);
    var stack := [root];
    var found: seq<Ast.Statement> := [];
    ghost var nodes: seq<Node> := [];
    assert OutermostOf(stack) == all by {
      assert stack[..0] == [];
    }
    while stack != []
      invariant Collected(all, stack, found, nodes)
      decreases SizeOf(stack)
    {
      var failed;
      stack, found, nodes, failed := WalkStep(all, stack, found, nodes);
      if failed.Some? {
        return Err(failed.value);
      }
    }
    r := Ok(Reverse(found));
    CollectDone(all, found, nodes);
  }
}
