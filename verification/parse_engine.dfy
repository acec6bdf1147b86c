/**
 * Parser::parse (Pengo/src/parser/Parser.h): the table-driven shift-reduce loop over a token
 * queue, a state stack and a node stack, followed by the child-reversal pass.
 */
module ParseEngine {
  import opened Wrappers
  import opened Collections
  import opened Tokens
  import opened ParserTables
  import opened ParseTree

  /** Why parsing stopped without a tree.  The source reports the first two on the console
      and then waits forever without changing either stack; the others are reads of an empty
      queue or stack, which the source leaves undefined, and the model's step bound. */
  datatype ParseError =
    | UnexpectedEnd(line: int, pos: int)
    | UnexpectedToken(line: int, pos: int)
    | InputExhausted
    | StackUnderflow
    | OutOfFuel

  /** The loop state: the unread tokens (front first), the state stack and the node stack
      (top last), and the most recently shifted token. */
  datatype Config = Config(input: seq<Token>, states: seq<nat>, output: seq<Node>, before: Token)

  /** The outcome of one iteration. */
  datatype Step = Next(c: Config) | Done(root: Node) | Stop(e: ParseError)

  /** The goto cell, where a cell the constructor never assigned reads as 0 (the value a
      lookup with operator[] inserts). */
  function GotoState(t: Tables, state: nat, n: NodeType): (g: nat)
    requires WellFormed(t)
    ensures g !in t.leafStates
    ensures t.goto(state, n).Some? ==> g == t.goto(state, n).value
  {
    match t.goto(state, n)
    case Some(g) => g
    case None => 0
  }

  /** A reduction by rule `p`: pop `rhs` states and push the goto of the uncovered state;
      push a leaf holding the last shifted token, or an interior node whose children are the
      top `rhsNodes` nodes, the topmost first.  The token queue is untouched. */
  function ReduceBy(t: Tables, c: Config, p: Production): (r: Step)
    requires WellFormed(t)
    ensures !r.Done?
    ensures r.Stop? <==> |c.states| <= p.rhs || (!p.terminates && |c.output| < p.rhsNodes)
    ensures r.Stop? ==> r.e == StackUnderflow
    ensures r.Next? ==>
      var kept := |c.states| - p.rhs;
      && r.c.input == c.input && r.c.before == c.before
      && r.c.states == c.states[..kept] + [GotoState(t, c.states[kept - 1], p.lhs)]
    ensures r.Next? && p.terminates ==>
      r.c.output == c.output + [Node(p.lhs, true, c.before, [])]
    ensures r.Next? && !p.terminates ==>
      var below := |c.output| - p.rhsNodes;
      && 0 <= below
      && |r.c.output| == below + 1
      && r.c.output[..below] == c.output[..below]
      && r.c.output[below] == Node(p.lhs, false, BlankToken, Reverse(c.output[below..]))
  {
    if |c.states| <= p.rhs then Stop(StackUnderflow)
    else
      var kept := |c.states| - p.rhs;
      var states := c.states[..kept] + [GotoState(t, c.states[kept - 1], p.lhs)];
      if p.terminates then
        Next(Config(c.input, states, c.output + [Node(p.lhs, true, c.before, [])], c.before))
      else if |c.output| < p.rhsNodes then Stop(StackUnderflow)
      else
        var below := |c.output| - p.rhsNodes;
        var node := Node(p.lhs, false, BlankToken, Reverse(c.output[below..]));
        Next(Config(c.input, states, c.output[..below] + [node], c.before))
  }

  /** The action cell of the top state under the front token. */
  function CellOf(t: Tables, c: Config): Option<Action>
    requires c.input != [] && c.states != []
  {
    t.action(c.states[|c.states| - 1], c.input[0].kind)
  }

  /** One iteration of the loop, looking up the cell of the top state and the front token. */
  function StepOf(t: Tables, c: Config): (r: Step)
    requires WellFormed(t)
    ensures r.Next? ==>
      || (r.c.input == c.input && r.c.before == c.before)
      || (c.input != [] && r.c.input == c.input[1..] && r.c.before == c.input[0]
          && r.c.output == c.output && |r.c.states| == |c.states| + 1)
    ensures r.Done? ==>
      && c.input != [] && c.states != [] && c.output != []
      && t.action(c.states[|c.states| - 1], c.input[0].kind) == Some(Accept)
      && r.root == c.output[|c.output| - 1]
    ensures r.Stop? && (r.e.UnexpectedEnd? || r.e.UnexpectedToken?) ==>
      && c.input != [] && c.states != []
      && t.action(c.states[|c.states| - 1], c.input[0].kind).None?
      && (r.e.UnexpectedEnd? <==> c.input[0].kind == Eof)
      && r.e.line == c.input[0].line && r.e.pos == c.input[0].pos
    ensures c.input != [] && c.states != [] && CellOf(t, c).Some? && CellOf(t, c).value.Shift? ==>
      r == Next(Config(c.input[1..], c.states + [CellOf(t, c).value.target], c.output, c.input[0]))
    ensures c.input != [] && c.states != [] && CellOf(t, c).Some? && CellOf(t, c).value.Reduce? ==>
      r == ReduceBy(t, c, t.rules[CellOf(t, c).value.rule - 1])
    ensures c.input == [] ==> r == Stop(InputExhausted)
  {
    if c.input == [] then Stop(InputExhausted)
    else if c.states == [] then Stop(StackUnderflow)
    else
      var current := c.input[0];
      match t.action(c.states[|c.states| - 1], current.kind)
      case None =>
        Stop(if current.kind == Eof then UnexpectedEnd(current.line, current.pos)
             else UnexpectedToken(current.line, current.pos))
      case Some(Shift(n)) => Next(Config(c.input[1..], c.states + [n], c.output, current))
      case Some(Reduce(k)) => ReduceBy(t, c, t.rules[k - 1])
      case Some(Accept) =>
        if c.output == [] then Stop(StackUnderflow) else Done(c.output[|c.output| - 1])
  }

  /** The loop run for at most `fuel` iterations; an accepted root goes through the pass. */
  function Run(t: Tables, fuel: nat, c: Config): Result<Node, ParseError>
    requires WellFormed(t)
  {
    if fuel == 0 then Err(OutOfFuel)
    else
      match StepOf(t, c)
      case Next(c') => Run(t, fuel - 1, c')
      case Done(root) => Ok(ReverseAll(root))
      case Stop(e) => Err(e)
  }

  /** The configuration parse() starts from: state stack [0], no nodes, and the first token
      as the last shifted one. */
  function Initial(tokens: seq<Token>): (c: Config)
    requires tokens != []
    ensures c.states == [0] && c.output == [] && c.input == tokens
  {
    Config(tokens, [0], [], tokens[0])
  }

  /** parse(): an empty token list has no front token to start from. */
  function Parse(t: Tables, tokens: seq<Token>, fuel: nat): Result<Node, ParseError>
    requires WellFormed(t)
  {
    if tokens == [] then Err(InputExhausted) else Run(t, fuel, Initial(tokens))
  }

  /** What holds between iterations: the queue is a suffix of the tokens, every node on the
      stack was built by a rule, and the frontier of the node stack appears in order in the
      tokens consumed so far.  In a state that is about to build a leaf, the last shifted
      token is the last consumed one and is not yet in the frontier. */
  ghost predicate Good(t: Tables, tokens: seq<Token>, c: Config) {
    && |c.input| <= |tokens|
    && c.input == tokens[|tokens| - |c.input|..]
    && (forall i :: 0 <= i < |c.output| ==> Shaped(t.rules, c.output[i]))
    && SubSeq(Frontier(c.output), tokens[..|tokens| - |c.input|])
    && (c.states != [] && c.states[|c.states| - 1] in t.leafStates ==>
          var k := |tokens| - |c.input|;
          && 0 < k
          && c.before == tokens[k - 1]
          && SubSeq(Frontier(c.output), tokens[..k - 1]))
  }

  lemma InitialGood(t: Tables, tokens: seq<Token>)
    requires WellFormed(t) && tokens != []
    ensures Good(t, tokens, Initial(tokens))
  {
  }

  lemma ShiftKeepsGood(t: Tables, tokens: seq<Token>, c: Config, n: nat)
    requires Good(t, tokens, c) && c.input != []
    ensures Good(t, tokens, Config(c.input[1..], c.states + [n], c.output, c.input[0]))
  {
    var k := |tokens| - |c.input|;
    assert tokens[k] == c.input[0];
    assert tokens[..k + 1] == tokens[..k] + [tokens[k]];
    SubSeqExtend(Frontier(c.output), tokens[..k], tokens[k]);
  }

  lemma LeafKeepsGood(t: Tables, tokens: seq<Token>, c: Config, k: nat)
    requires WellFormed(t) && Good(t, tokens, c) && c.states != []
    requires c.states[|c.states| - 1] in t.leafStates
    requires 1 <= k <= |t.rules| && t.rules[k - 1].terminates
    requires ReduceBy(t, c, t.rules[k - 1]).Next?
    ensures Good(t, tokens, ReduceBy(t, c, t.rules[k - 1]).c)
  {
    var p := t.rules[k - 1];
    var c' := ReduceBy(t, c, p).c;
    var leaf := Node(p.lhs, true, c.before, []);
    var m := |tokens| - |c.input|;
    assert InOrder(leaf) == [c.before];
    assert (c.output + [leaf])[..|c.output|] == c.output;
    assert Frontier(c'.output) == Frontier(c.output) + [c.before];
    assert tokens[..m] == tokens[..m - 1] + [tokens[m - 1]];
    SubSeqExtend(Frontier(c.output), tokens[..m - 1], c.before);
    assert Fits(leaf, p);
  }

  lemma InteriorKeepsGood(t: Tables, tokens: seq<Token>, c: Config, k: nat)
    requires WellFormed(t) && Good(t, tokens, c)
    requires 1 <= k <= |t.rules| && !t.rules[k - 1].terminates
    requires ReduceBy(t, c, t.rules[k - 1]).Next?
    ensures Good(t, tokens, ReduceBy(t, c, t.rules[k - 1]).c)
  {
    var p := t.rules[k - 1];
    var c' := ReduceBy(t, c, p).c;
    var below := |c.output| - p.rhsNodes;
    var popped := c.output[below..];
    var node := Node(p.lhs, false, BlankToken, Reverse(popped));
    assert c'.output == c.output[..below] + [node];
    InteriorFrontier(c.output, below, node, popped);
    InteriorShaped(t.rules, k - 1, c.output, below, node);
    GoodAfterGoto(t, tokens, c, c');
  }

  /** A configuration that read no more tokens, keeps rule-built nodes and the frontier, and
      sits in a goto state is as good as the one it came from. */
  lemma GoodAfterGoto(t: Tables, tokens: seq<Token>, c: Config, c': Config)
    requires Good(t, tokens, c) && c'.input == c.input
    requires forall i :: 0 <= i < |c'.output| ==> Shaped(t.rules, c'.output[i])
    requires Frontier(c'.output) == Frontier(c.output)
    requires c'.states != [] && c'.states[|c'.states| - 1] !in t.leafStates
    ensures Good(t, tokens, c')
  {
  }

  /** The node a reduction builds from the top nodes was built by its rule, so a stack of
      rule-built nodes stays one. */
  lemma InteriorShaped(rules: seq<Production>, j: nat, output: seq<Node>, below: nat, node: Node)
    requires j < |rules| && !rules[j].terminates
    requires below <= |output| && |output| - below == rules[j].rhsNodes
    requires node == Node(rules[j].lhs, false, BlankToken, Reverse(output[below..]))
    requires forall i :: 0 <= i < |output| ==> Shaped(rules, output[i])
    ensures forall i :: 0 <= i < below + 1 ==> Shaped(rules, (output[..below] + [node])[i])
  {
    var popped := output[below..];
    assert Fits(node, rules[j]);
    forall i | 0 <= i < |node.children|
      ensures Shaped(rules, node.children[i])
    {
      assert node.children[i] == popped[|popped| - 1 - i];
    }
  }

  /** Replacing the top nodes by one node built from them keeps the frontier. */
  lemma InteriorFrontier(output: seq<Node>, below: nat, node: Node, popped: seq<Node>)
    requires below <= |output| && popped == output[below..]
    requires node == Node(node.kind, false, BlankToken, Reverse(popped))
    ensures Frontier(output[..below] + [node]) == Frontier(output)
  {
    PoppedFrontier(node.kind, popped);
    FrontierAppend(output[..below], [node]);
    FrontierAppend(output[..below], popped);
    assert output[..below] + popped == output;
    assert Frontier([node]) == InOrder(node);
  }

  lemma StepKeepsGood(t: Tables, tokens: seq<Token>, c: Config)
    requires WellFormed(t) && Good(t, tokens, c) && StepOf(t, c).Next?
    ensures Good(t, tokens, StepOf(t, c).c)
  {
    match t.action(c.states[|c.states| - 1], c.input[0].kind)
    case Some(Shift(n)) => ShiftKeepsGood(t, tokens, c, n);
    case Some(Reduce(k)) =>
      if t.rules[k - 1].terminates {
        LeafKeepsGood(t, tokens, c, k);
      } else {
        InteriorKeepsGood(t, tokens, c, k);
      }
  }

  /** An accepted root, after the pass, was built by the rules, and its leaves read left to
      right appear in the same order among the tokens. */
  lemma DoneIsSound(t: Tables, tokens: seq<Token>, c: Config)
    requires WellFormed(t) && Good(t, tokens, c) && StepOf(t, c).Done?
    ensures Shaped(t.rules, ReverseAll(StepOf(t, c).root))
    ensures SubSeq(Leaves(ReverseAll(StepOf(t, c).root)), tokens)
  {
    var root := StepOf(t, c).root;
    var n := |c.output|;
    ShapedReverse(t.rules, root);
    assert c.output == c.output[..n - 1] + [root];
    FrontierAppend(c.output[..n - 1], [root]);
    assert Frontier([root]) == InOrder(root);
    SubSeqSuffix(Frontier(c.output[..n - 1]), InOrder(root));
    var m := |tokens| - |c.input|;
    SubSeqTrans(InOrder(root), Frontier(c.output), tokens[..m]);
    SubSeqPrefix(InOrder(root), tokens, m);
  }

  lemma {:induction false} RunIsSound(t: Tables, tokens: seq<Token>, fuel: nat, c: Config)
    requires WellFormed(t) && Good(t, tokens, c)
    ensures Run(t, fuel, c).Ok? ==>
      Shaped(t.rules, Run(t, fuel, c).value) && SubSeq(Leaves(Run(t, fuel, c).value), tokens)
    decreases fuel
  {
    if fuel > 0 {
      match StepOf(t, c)
      case Next(c') =>
        StepKeepsGood(t, tokens, c);
        RunIsSound(t, tokens, fuel - 1, c');
      case Done(root) => DoneIsSound(t, tokens, c);
      case Stop(e) =>
    }
  }

  /** A tree parse() returns is built from the rules, with each node's children in
      left-to-right order: reading its leaves gives tokens of the input, in input order. */
  lemma ParseIsSound(t: Tables, tokens: seq<Token>, fuel: nat)
    requires WellFormed(t)
    ensures Parse(t, tokens, fuel).Ok? ==>
      && Shaped(t.rules, Parse(t, tokens, fuel).value)
      && SubSeq(Leaves(Parse(t, tokens, fuel).value), tokens)
  {
    if tokens != [] {
      InitialGood(t, tokens);
      RunIsSound(t, tokens, fuel, Initial(tokens));
    }
  }

  /** The Pengo tables accept only in state 1 on end of input. */
  lemma PengoAccepts()
    ensures WellFormed(Pengo)
    ensures forall c :: StepOf(Pengo, c).Done? ==> c.states[|c.states| - 1] == 1 && c.input[0].kind == Eof
  {
    PengoWellFormed();
  }

  /** Parser::parse: the loop, bounded by `fuel` iterations, and the reversal pass at the
      end.  The Pengo parser runs it with `Pengo`. */
  method ParseTokens(t: Tables, tokens: seq<Token>, fuel: nat) returns (r: Result<Node, ParseError>)
    requires WellFormed(t)
    ensures r == Parse(t, tokens, fuel)
    ensures r.Ok? ==> Shaped(t.rules, r.value) && SubSeq(Leaves(r.value), tokens)
    ensures tokens == [] ==> r == Err(InputExhausted)
  {
    ParseIsSound(t, tokens, fuel);
    if tokens == [] {
      return Err(InputExhausted);
    }
    var c := Initial(tokens);
    var left := fuel;
    while true
      invariant Run(t, left, c) == Parse(t, tokens, fuel)
      decreases left
    {
      if left == 0 {
        return Err(OutOfFuel);
      }
      var step := StepOf(t, c);
      if step.Done? {
        return Ok(ReverseAll(step.root));
      } else if step.Stop? {
        return Err(step.e);
      }
      c, left := step.c, left - 1;
    }
  }

  /** With the Pengo tables, a parsed tree's nodes all fit m_grammar. */
  lemma PengoParseIsSound(tokens: seq<Token>, fuel: nat)
    ensures WellFormed(Pengo)
    ensures Parse(Pengo, tokens, fuel).Ok? ==>
      && Shaped(Productions, Parse(Pengo, tokens, fuel).value)
      && SubSeq(Leaves(Parse(Pengo, tokens, fuel).value), tokens)
  {
    PengoWellFormed();
    ParseIsSound(Pengo, tokens, fuel);
  }
}
