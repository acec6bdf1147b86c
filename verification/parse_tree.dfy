/**
 * The parse tree of the Pengo parser (Node in Pengo/src/parser/Parser.h) and the pass that
 * ends parse(): every node's children are reversed, which turns the pop order in which a
 * reduction collects its children back into left-to-right order.
 */
module ParseTree {
  import opened Collections
  import opened Tokens
  import opened ParserTables

  /** A node: its type, whether it is a token leaf, the token a leaf carries, and its
      children.  Interior nodes carry a default token. */
  datatype Node = Node(kind: NodeType, terminal: bool, token: Token, children: seq<Node>)

  /** A default-constructed Token: type _EOF and empty text.  Its line and pos are left
      uninitialised by the source; the model fixes them at 0. */
  const BlankToken := Token(Eof, "", 0, 0)

  /** The tokens of the leaves, children in stored order. */
  function Leaves(n: Node): seq<Token> {
    if n.terminal then [n.token] else LeavesOf(n.children)
  }

  function LeavesOf(cs: seq<Node>): seq<Token> {
    if cs == [] then [] else Leaves(cs[0]) + LeavesOf(cs[1..])
  }

  /** The reversal pass: every node's children list is reversed, at every depth. */
  function ReverseAll(n: Node): (r: Node)
    ensures r.kind == n.kind && r.terminal == n.terminal && r.token == n.token
    ensures |r.children| == |n.children|
  {
    n.(children := ReverseList(n.children))
  }

  /** The children of one node after the pass: last child first, each reversed in turn. */
  function ReverseList(cs: seq<Node>): (r: seq<Node>)
    ensures |r| == |cs|
    ensures forall i :: 0 <= i < |cs| ==> r[i] == ReverseAll(cs[|cs| - 1 - i])
  {
    if cs == [] then [] else ReverseList(cs[1..]) + [ReverseAll(cs[0])]
  }

  /** Applying the pass twice gives the original tree back. */
  lemma {:induction false} ReverseAllTwice(n: Node)
    ensures ReverseAll(ReverseAll(n)) == n
    decreases n, 1
  {
    ReverseListTwice(n.children);
  }

  lemma {:induction false} ReverseListTwice(cs: seq<Node>)
    ensures ReverseList(ReverseList(cs)) == cs
    decreases cs, 0
  {
    var r := ReverseList(ReverseList(cs));
    forall i | 0 <= i < |cs|
      ensures r[i] == cs[i]
    {
      ReverseAllTwice(cs[i]);
    }
  }

  /** The left-to-right frontier of a node whose children are still in pop order. */
  function InOrder(n: Node): seq<Token> {
    Leaves(ReverseAll(n))
  }

  /** The frontiers of the nodes of a node stack, bottom first. */
  function Frontier(ns: seq<Node>): seq<Token> {
    if ns == [] then [] else Frontier(ns[..|ns| - 1]) + InOrder(ns[|ns| - 1])
  }

  lemma {:induction false} FrontierAppend(a: seq<Node>, b: seq<Node>)
    ensures Frontier(a + b) == Frontier(a) + Frontier(b)
    decreases |b|
  {
    if b != [] {
      var b' := b[..|b| - 1];
      assert (a + b)[..|a + b| - 1] == a + b';
      FrontierAppend(a, b');
    } else {
      assert a + b == a;
    }
  }

  lemma {:induction false} LeavesOfAppend(a: seq<Node>, b: seq<Node>)
    ensures LeavesOf(a + b) == LeavesOf(a) + LeavesOf(b)
    decreases |a|
  {
    if a == [] {
      assert a + b == b;
    } else {
      assert (a + b)[1..] == a[1..] + b;
      LeavesOfAppend(a[1..], b);
    }
  }

  /** Reversing a child list and then each child reads the children back to front. */
  lemma {:induction false} ReversedLeaves(cs: seq<Node>)
    ensures LeavesOf(ReverseList(cs)) == Frontier(Reverse(cs))
    decreases |cs|
  {
    if cs != [] {
      ReversedLeaves(cs[1..]);
      LeavesOfAppend(ReverseList(cs[1..]), [ReverseAll(cs[0])]);
      assert LeavesOf([ReverseAll(cs[0])]) == InOrder(cs[0]);
      var rv := Reverse(cs[1..]) + [cs[0]];
      assert rv[..|rv| - 1] == Reverse(cs[1..]);
    }
  }

  /** The frontier of a node built from popped children is the frontier of those children in
      the order they sat on the stack. */
  lemma PoppedFrontier(kind: NodeType, popped: seq<Node>)
    ensures InOrder(Node(kind, false, BlankToken, Reverse(popped))) == Frontier(popped)
  {
    ReversedLeaves(Reverse(popped));
    ReverseReverse(popped);
  }

  /** The node fits the reduction record: same type and leaf flag, and a leaf has no
      children while an interior node has exactly the children the rule takes. */
  predicate Fits(n: Node, p: Production) {
    && n.kind == p.lhs
    && n.terminal == p.terminates
    && |n.children| == (if p.terminates then 0 else p.rhsNodes)
  }

  /** Every node of the tree was built by one of the reductions `rules`. */
  predicate Shaped(rules: seq<Production>, n: Node) {
    && (exists i :: 0 <= i < |rules| && Fits(n, rules[i]))
    && forall i :: 0 <= i < |n.children| ==> Shaped(rules, n.children[i])
  }

  /** The pass keeps every node's shape. */
  lemma {:induction false} ShapedReverse(rules: seq<Production>, n: Node)
    requires Shaped(rules, n)
    ensures Shaped(rules, ReverseAll(n))
    decreases n
  {
    var k :| 0 <= k < |rules| && Fits(n, rules[k]);
    assert Fits(ReverseAll(n), rules[k]);
    var cs := n.children;
    forall i | 0 <= i < |cs|
      ensures Shaped(rules, ReverseAll(n).children[i])
    {
      ShapedReverse(rules, cs[|cs| - 1 - i]);
    }
  }
}
