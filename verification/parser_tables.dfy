/**
 * The concrete tables of the emitted Pengo parser (Pengo/src/parser/Parser.h): the node types,
 * the action table of 36 states, the goto table and the 24 reduction records.  A cell the
 * constructor never assigns reads as "no action" (action) or is absent (goto).
 */
module ParserTables {
  import opened Wrappers
  import opened Tokens

  /** Parse-tree node types, one per nonterminal of the grammar the tables were built from. */
  datatype NodeType =
    | Expression | File | Term | Statements | Statement | VarDeclareStatement | PrintStatement
    | TermOp | Factor | FactorOp | Primary | Grouping | Literal | Identifier

  /** A filled action cell; an unfilled one (ActionType::None) is `None` of the Option. */
  datatype Action = Shift(target: nat) | Reduce(rule: nat) | Accept

  /** The reduction record of one grammar rule: the node type it builds, how many states it
      pops, how many nodes it takes as children, and whether it builds a token leaf. */
  datatype Production = Production(lhs: NodeType, rhs: nat, rhsNodes: nat, terminates: bool)

  /** SET_NUM and GRAMMAR_NUM. */
  const SetCount: nat := 36
  const GrammarCount: nat := 24

  /** The action table: shift targets are states, reduce values name a rule 1..24, and the
      only accepting cell is state 1 on end of input. */
  function ActionCell(state: nat, t: TokenType): (a: Option<Action>)
    ensures a.Some? && a.value.Shift? ==> a.value.target < SetCount
    ensures a.Some? && a.value.Reduce? ==> 1 <= a.value.rule <= GrammarCount
    ensures a == Some(Accept) <==> state == 1 && t == Eof
    ensures a.Some? && a.value.Reduce? && a.value.rule in LeafRules ==> state in LeafStates
  {
    match state
    case 0 => FirstCell(t)
    case 18 => (if t == Eof then Some(Reduce(1)) else FirstCell(t))
    case 1 => (if t == Eof then Some(Accept) else None)
    case 4 => (if t == TokenType.Identifier then Some(Shift(2)) else None)
    case 7 => PrimaryCell(t)
    case 9 => PrimaryCell(t)
    case 22 => PrimaryCell(t)
    case 25 => PrimaryCell(t)
    case 30 => PrimaryCell(t)
    case 8 =>
      (match t
       case Minus => Some(Shift(21))
       case Plus => Some(Shift(23))
       case Semicolon => Some(Reduce(9))
       case RightParen => Some(Reduce(9))
       case _ => None)
    case 13 => FactorCell(t, 11)
    case 31 => FactorCell(t, 10)
    case 17 => (if t == Semicolon then Some(Shift(28)) else None)
    case 19 => (if t == Equal then Some(Shift(30)) else None)
    case 24 => (if t == RightParen then Some(Shift(32)) else None)
    case 29 => (if t == Semicolon then Some(Shift(34)) else None)
    case _ => ReduceCell(state, t)
  }

  /** The states whose every filled cell is a reduction. */
  function ReduceCell(state: nat, t: TokenType): (a: Option<Action>)
    ensures a.Some? ==> a.value.Reduce? && 1 <= a.value.rule <= GrammarCount
    ensures a.Some? && a.value.rule in LeafRules ==> state in LeafStates
  {
    match state
    case 2 => (if t in {RightParen, Plus, Semicolon, Equal, Minus, Slash, Asterisk} then Some(Reduce(24)) else None)
    case 3 => OperandEnd(t, 18)
    case 5 => OperandEnd(t, 23)
    case 6 => OperandEnd(t, 22)
    case 10 => OperandEnd(t, 19)
    case 11 => OperandEnd(t, 20)
    case 12 => OperandEnd(t, 15)
    case 32 => OperandEnd(t, 21)
    case 33 => OperandEnd(t, 14)
    case 14 => (if t == Semicolon then Some(Reduce(4)) else None)
    case 15 => (if t == Semicolon then Some(Reduce(5)) else None)
    case 16 => (if t == Semicolon then Some(Reduce(6)) else None)
    case 20 => (if t == Semicolon then Some(Reduce(7)) else None)
    case 35 => (if t == Semicolon then Some(Reduce(8)) else None)
    case 21 => OperandStart(t, 13)
    case 23 => OperandStart(t, 12)
    case 26 => OperandStart(t, 16)
    case 27 => OperandStart(t, 17)
    case 28 => StatementEnd(t, 3)
    case 34 => StatementEnd(t, 2)
    case _ => None
  }

  /** The states that reduce by a leaf-building rule (one whose node carries the token just
      shifted).  Each is entered only by a shift. */
  const LeafStates: set<nat> := {2, 5, 6, 21, 23, 26, 27}

  /** The rules that build a leaf. */
  const LeafRules: set<nat> := {12, 13, 16, 17, 22, 23, 24}

  /** Token types that can begin a primary expression. */
  predicate StartsOperand(t: TokenType) {
    t in {Number, String, LeftParen, TokenType.Identifier}
  }

  /** Token types that can follow a primary expression. */
  predicate EndsOperand(t: TokenType) {
    t in {RightParen, Plus, Semicolon, Minus, Slash, Asterisk}
  }

  /** States 0 and 18: the start of a statement. */
  function FirstCell(t: TokenType): Option<Action> {
    match t
    case Var => Some(Shift(4))
    case Identifier => Some(Shift(2))
    case Print => Some(Shift(7))
    case Number => Some(Shift(6))
    case String => Some(Shift(5))
    case LeftParen => Some(Shift(9))
    case _ => None
  }

  /** States 7, 9, 22, 25 and 30: the start of an operand. */
  function PrimaryCell(t: TokenType): Option<Action> {
    match t
    case Number => Some(Shift(6))
    case String => Some(Shift(5))
    case LeftParen => Some(Shift(9))
    case Identifier => Some(Shift(2))
    case _ => None
  }

  /** States 13 and 31: a factor that may still take a `*` or `/`. */
  function FactorCell(t: TokenType, rule: nat): Option<Action> {
    match t
    case Asterisk => Some(Shift(26))
    case Slash => Some(Shift(27))
    case RightParen => Some(Reduce(rule))
    case Plus => Some(Reduce(rule))
    case Semicolon => Some(Reduce(rule))
    case Minus => Some(Reduce(rule))
    case _ => None
  }

  /** A reduction on any token that may follow an operand. */
  function OperandEnd(t: TokenType, rule: nat): Option<Action> {
    if EndsOperand(t) then Some(Reduce(rule)) else None
  }

  /** A reduction on any token that may begin an operand (after an operator token). */
  function OperandStart(t: TokenType, rule: nat): Option<Action> {
    if StartsOperand(t) then Some(Reduce(rule)) else None
  }

  /** A reduction on any token that may begin a statement, or end of input. */
  function StatementEnd(t: TokenType, rule: nat): Option<Action> {
    if t in {Eof, TokenType.Identifier, Var, Number, String, Print, LeftParen} then Some(Reduce(rule)) else None
  }

  /** The goto table; every target is a state. */
  function GotoCell(state: nat, n: NodeType): (g: Option<nat>)
    ensures g.Some? ==> g.value < SetCount && g.value !in LeafStates
  {
    match state
    case 0 =>
      (match n
       case File => Some(1)
       case Statements => Some(18)
       case Statement => Some(17)
       case _ => StatementGoto(n))
    case 18 =>
      (match n
       case Statement => Some(29)
       case File => None
       case Statements => None
       case _ => StatementGoto(n))
    case 7 => ExpressionGoto(n, 20)
    case 9 => ExpressionGoto(n, 24)
    case 30 => ExpressionGoto(n, 35)
    case 22 => (if n == Factor then Some(31) else PrimaryGoto(n, 12))
    case 25 => PrimaryGoto(n, 33)
    case 4 => (if n == NodeType.Identifier then Some(19) else None)
    case 8 => (if n == TermOp then Some(22) else None)
    case 13 => (if n == FactorOp then Some(25) else None)
    case 31 => (if n == FactorOp then Some(25) else None)
    case _ => None
  }

  /** Goto entries shared by states 0 and 18 below the statement level. */
  function StatementGoto(n: NodeType): (g: Option<nat>)
    ensures g.Some? ==> g.value < SetCount && g.value !in LeafStates
  {
    match n
    case PrintStatement => Some(15)
    case VarDeclareStatement => Some(16)
    case _ => ExpressionGoto(n, 14)
  }

  /** Goto entries of a state that expects a whole expression. */
  function ExpressionGoto(n: NodeType, expression: nat): (g: Option<nat>)
    requires expression < SetCount && expression !in LeafStates
    ensures g.Some? ==> g.value < SetCount && g.value !in LeafStates
  {
    match n
    case Expression => Some(expression)
    case Term => Some(8)
    case Factor => Some(13)
    case _ => PrimaryGoto(n, 12)
  }

  /** Goto entries of a state that expects a primary operand. */
  function PrimaryGoto(n: NodeType, primary: nat): (g: Option<nat>)
    requires primary < SetCount && primary !in LeafStates
    ensures g.Some? ==> g.value < SetCount && g.value !in LeafStates
  {
    match n
    case Primary => Some(primary)
    case Identifier => Some(3)
    case Literal => Some(11)
    case Grouping => Some(10)
    case _ => None
  }

  /** The reduction records m_grammar[0..23], in rule order. */
  const Productions: seq<Production> := [
    Production(File, 1, 1, false),
    Production(Statements, 3, 2, false),
    Production(Statements, 2, 1, false),
    Production(Statement, 1, 1, false),
    Production(Statement, 1, 1, false),
    Production(Statement, 1, 1, false),
    Production(PrintStatement, 2, 1, false),
    Production(VarDeclareStatement, 4, 2, false),
    Production(Expression, 1, 1, false),
    Production(Term, 3, 3, false),
    Production(Term, 1, 1, false),
    Production(TermOp, 1, 0, true),
    Production(TermOp, 1, 0, true),
    Production(Factor, 3, 3, false),
    Production(Factor, 1, 1, false),
    Production(FactorOp, 1, 0, true),
    Production(FactorOp, 1, 0, true),
    Production(Primary, 1, 1, false),
    Production(Primary, 1, 1, false),
    Production(Primary, 1, 1, false),
    Production(Grouping, 3, 1, false),
    Production(Literal, 1, 0, true),
    Production(Literal, 1, 0, true),
    Production(NodeType.Identifier, 1, 0, true)
  ]

  /** The record reduce k uses (m_grammar[k - 1]): it never takes more child nodes than it
      pops states, a leaf-building rule takes none, and every rule pops at least one state. */
  function Rule(k: nat): (p: Production)
    requires 1 <= k <= GrammarCount
    ensures p.rhsNodes <= p.rhs && 1 <= p.rhs
    ensures p.terminates ==> p.rhsNodes == 0
    ensures p.terminates <==> p.lhs in {TermOp, FactorOp, Literal, NodeType.Identifier}
    ensures p.terminates <==> k in LeafRules
  {
    Productions[k - 1]
  }

  /** The tables parse() consults: the action and goto cells, the reduction records (reduce
      k uses rules[k - 1]) and the states that build leaves. */
  datatype Tables = Tables(
    action: (nat, TokenType) -> Option<Action>,
    goto: (nat, NodeType) -> Option<nat>,
    rules: seq<Production>,
    leafStates: set<nat>)

  /** What the loop relies on: every reduce value names a rule, a leaf-building rule is
      reduced only in a leaf state, and no goto (nor the default state 0) enters one. */
  ghost predicate WellFormed(t: Tables) {
    && (forall s: nat, x: TokenType :: t.action(s, x).Some? && t.action(s, x).value.Reduce? ==>
          && 1 <= t.action(s, x).value.rule <= |t.rules|
          && (t.rules[t.action(s, x).value.rule - 1].terminates ==> s in t.leafStates))
    && (forall s: nat, n: NodeType :: t.goto(s, n).Some? ==> t.goto(s, n).value !in t.leafStates)
    && 0 !in t.leafStates
  }

  /** The tables of the Pengo parser. */
  const Pengo: Tables := Tables(ActionCell, GotoCell, Productions, LeafStates)

  lemma PengoWellFormed()
    ensures WellFormed(Pengo) && |Pengo.rules| == GrammarCount
  {
    forall s: nat, x: TokenType | ActionCell(s, x).Some? && ActionCell(s, x).value.Reduce?
      ensures Productions[ActionCell(s, x).value.rule - 1].terminates ==> s in LeafStates
    {
      assert Rule(ActionCell(s, x).value.rule) == Productions[ActionCell(s, x).value.rule - 1];
    }
  }
}
