/**
 * The generator's grammar model: symbols, productions and LR items.
 *
 * The generator's input symbols carry a `trackInExp` flag, but symbol equality (and the
 * hash sets and maps keyed by symbols) look only at the name and the kind.  The generator
 * therefore works on erased symbols `Sym` and erased productions `Rule`; the lemma
 * `ProductionEqIsErasedEquality` shows that equality of erased productions is exactly the
 * source's production equality.
 */
module Grammar {

  datatype SymbolKind = Terminal | Nonterminal

  /** A grammar symbol as the grammar author writes it. */
  datatype Symbol = Symbol(name: string, kind: SymbolKind, trackInExp: bool)

  /** A production as the grammar author writes it. */
  datatype Production = Production(lhs: Symbol, rhs: seq<Symbol>)

  /** A symbol's identity: what the source's equality and hashing look at. */
  datatype Sym = Sym(name: string, kind: SymbolKind)

  /** A production up to symbol identity. */
  datatype Rule = Rule(lhs: Sym, rhs: seq<Sym>)

  /** An LR item: a rule, a dot position and a lookahead set. */
  datatype Item = Item(rule: Rule, dot: nat, lookahead: set<Sym>)

  /** The end-of-input marker, a terminal named "$". */
  const EndMarker: Sym := Sym("$", Terminal)

  predicate SymbolEq(a: Symbol, b: Symbol) {
    a.name == b.name && a.kind == b.kind
  }

  predicate ProductionEq(p: Production, q: Production) {
    && SymbolEq(p.lhs, q.lhs)
    && |p.rhs| == |q.rhs|
    && forall i :: 0 <= i < |p.rhs| ==> SymbolEq(p.rhs[i], q.rhs[i])
  }

  function Key(s: Symbol): Sym {
    Sym(s.name, s.kind)
  }

  function Erase(p: Production): (r: Rule)
    ensures r.lhs == Key(p.lhs)
    ensures |r.rhs| == |p.rhs|
    ensures forall i :: 0 <= i < |p.rhs| ==> r.rhs[i] == Key(p.rhs[i])
  {
    Rule(Key(p.lhs), seq(|p.rhs|, i requires 0 <= i < |p.rhs| => Key(p.rhs[i])))
  }

  function EraseAll(g: seq<Production>): (rs: seq<Rule>)
    ensures |rs| == |g|
    ensures forall i :: 0 <= i < |g| ==> rs[i] == Erase(g[i])
  {
    seq(|g|, i requires 0 <= i < |g| => Erase(g[i]))
  }

  /** Symbol equality ignores the tracking flag: it is equality of identities. */
  lemma SymbolEqIsKeyEquality(a: Symbol, b: Symbol)
    ensures SymbolEq(a, b) <==> Key(a) == Key(b)
  {
  }

  /** Production equality (equal lhs, same length, element-wise equal rhs) is exactly
      equality of the erased rules. */
  lemma {:induction false} ProductionEqIsErasedEquality(p: Production, q: Production)
    ensures ProductionEq(p, q) <==> Erase(p) == Erase(q)
  {
    if ProductionEq(p, q) {
      assert Erase(p).rhs == Erase(q).rhs;
    }
    if Erase(p) == Erase(q) {
      forall i | 0 <= i < |p.rhs|
        ensures SymbolEq(p.rhs[i], q.rhs[i])
      {
        assert Erase(p).rhs[i] == Erase(q).rhs[i];
      }
    }
  }

  /** The dot has reached (or passed) the end of the right-hand side. */
  predicate IsAtEnd(it: Item) {
    it.dot >= |it.rule.rhs|
  }

  /** The symbol right after the dot. */
  function DotSymbol(it: Item): Sym
    requires !IsAtEnd(it)
  {
    it.rule.rhs[it.dot]
  }

  /** The symbol after the one behind the dot, or "$" when the dot is before the last symbol. */
  function NextSymbol(it: Item): (s: Sym)
    requires !IsAtEnd(it)
    ensures it.dot + 1 < |it.rule.rhs| ==> s in it.rule.rhs
    ensures it.dot + 1 == |it.rule.rhs| ==> s == EndMarker
  {
    if it.dot + 1 == |it.rule.rhs| then EndMarker else it.rule.rhs[it.dot + 1]
  }

  /** `IsAtEnd` holds exactly when no symbol follows the dot. */
  lemma AtEndIffNoDotSymbol(it: Item)
    ensures IsAtEnd(it) <==> !(0 <= it.dot < |it.rule.rhs|)
  {
  }

  /** The (rule, dot) pair that identifies an item when item sets are compared. */
  function CoreOf(it: Item): (Rule, nat) {
    (it.rule, it.dot)
  }

  function Core(items: seq<Item>): (c: seq<(Rule, nat)>)
    ensures |c| == |items|
    ensures forall i :: 0 <= i < |items| ==> c[i] == CoreOf(items[i])
  {
    seq(|items|, i requires 0 <= i < |items| => CoreOf(items[i]))
  }

  /** The augmented production `S' -> S` for start symbol `S`. */
  function Augment(start: Symbol): Production {
    Production(Symbol(start.name + "'", Nonterminal, false), [start])
  }

  /** The augmented rule on symbol identities. */
  function AugRule(start: Sym): (r: Rule)
    ensures r.lhs.kind == Nonterminal && r.lhs.name == start.name + "'"
    ensures r.rhs == [start]
  {
    Rule(Sym(start.name + "'", Nonterminal), [start])
  }

  lemma AugmentErases(start: Symbol)
    ensures Erase(Augment(start)) == AugRule(Key(start))
  {
    assert Erase(Augment(start)).rhs == [Key(start)];
  }

  /** The first item of the generator: `S' -> . S` expecting the end marker. */
  function StartItem(start: Sym): Item {
    Item(AugRule(start), 0, {EndMarker})
  }

  /** Every symbol that occurs in a rule. */
  function SymbolsOf(rules: seq<Rule>): (u: set<Sym>)
    ensures forall r, s :: r in rules && s in r.rhs ==> s in u
    ensures forall r :: r in rules ==> r.lhs in u
  {
    (set r | r in rules :: r.lhs) + (set r, s | r in rules && s in r.rhs :: s)
  }
}
