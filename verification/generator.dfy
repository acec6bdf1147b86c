/**
 * generateTables of the table generator (Peg/src/peg.cpp): augment the grammar, build the
 * item sets, propagate and derive their lookaheads, write the accept and reduce entries,
 * collect the type names and register the "$" to "_EOF" substitution.
 */
module Generator {
  import opened Wrappers
  import opened Grammar
  import opened Collections
  import opened ItemSets
  import opened Lookaheads
  import opened Derive
  import opened Actions

  /** What generateTables leaves behind for the parser emitter. */
  datatype Generated = Generated(
    sets: seq<ItemSet>,
    action: map<(nat, string), Act>,
    goto: map<(nat, string), nat>,
    expressions: set<string>,
    tokens: set<string>,
    subst: map<string, string>)

  /** The item sets of a finished construction can be handed to the propagation. */
  lemma BuiltIsPropagatable(g: seq<Rule>, start: Sym, sets: seq<ItemSet>, t: Tables)
    requires Built(g, start, sets, |sets|, t)
    ensures SetsOk(g + [AugRule(start)], sets) && TargetsOk(sets)
  {
    var rules := g + [AugRule(start)];
    forall i | 0 <= i < |sets|
      ensures ItemsOk(rules, sets[i].items)
    {
      assert WellCored(rules, sets[i].items);
      forall j | 0 <= j < |sets[i].items|
        ensures sets[i].items[j].lookahead <= Universe(rules)
      {
        assert sets[i].items[j].lookahead <= {EndMarker};
      }
    }
    forall i, m | 0 <= i < |sets| && 0 <= m < |sets[i].next|
      ensures sets[i].next[m].1 < |sets|
    {
      assert EdgesOk(g, sets, i);
    }
  }

  /** The action cells written for transitions are shifts to existing states. */
  lemma ShiftsBounded(sets: seq<ItemSet>, t: Tables)
    requires TableKeysOk(sets, |sets|, t) && TargetsOk(sets)
    requires forall i :: 0 <= i < |sets| ==> TablesOk(sets, i, t)
    ensures forall k :: k in t.action ==> t.action[k].Shift? && t.action[k].target < |sets|
  {
    forall k | k in t.action
      ensures t.action[k].Shift? && t.action[k].target < |sets|
    {
      var e :| e in sets[k.0].next && e.0 == Sym(k.1, Terminal);
      assert TablesOk(sets, k.0, t);
      var m :| 0 <= m < |sets[k.0].next| && sets[k.0].next[m] == e;
    }
  }

  /** The goto cells written for transitions lead from and to existing states. */
  lemma GotosBounded(sets: seq<ItemSet>, t: Tables)
    requires TableKeysOk(sets, |sets|, t) && TargetsOk(sets)
    requires forall i :: 0 <= i < |sets| ==> TablesOk(sets, i, t)
    ensures forall k :: k in t.goto ==> k.0 < |sets| && t.goto[k] < |sets|
  {
    forall k | k in t.goto
      ensures k.0 < |sets| && t.goto[k] < |sets|
    {
      var e :| e in sets[k.0].next && e.0 == Sym(k.1, Nonterminal);
      assert TablesOk(sets, k.0, t);
      var m :| 0 <= m < |sets[k.0].next| && sets[k.0].next[m] == e;
    }
  }

  /** The tables of createSets: shifts only, and every target and state exists. */
  lemma TablesBounded(g: seq<Rule>, start: Sym, sets: seq<ItemSet>, t: Tables)
    requires Built(g, start, sets, |sets|, t)
    ensures forall k :: k in t.action ==> t.action[k].Shift? && t.action[k].target < |sets|
    ensures forall k :: k in t.goto ==> k.0 < |sets| && t.goto[k] < |sets|
  {
    BuiltIsPropagatable(g, start, sets, t);
    assert forall i :: 0 <= i < |sets| ==> TablesOk(sets, i, t);
    ShiftsBounded(sets, t);
    GotosBounded(sets, t);
  }

  /** What an accept or reduce cell of the final action table means: it is written by a
      completed item of its own state whose lookahead names the cell's column; a Reduce k
      cell names the first grammar rule equal to that item's rule. */
  ghost predicate CellExplained(grammar: seq<Production>, aug: Rule, sets: seq<ItemSet>, k: (nat, string), a: Act) {
    && (a == Accept ==>
         exists j :: && k.0 < |sets| && 0 <= j < |sets[k.0].items|
                     && sets[k.0].items[j].rule == aug && IsAtEnd(sets[k.0].items[j])
                     && exists x :: x in sets[k.0].items[j].lookahead && x.name == k.1)
    && (a.Reduce? ==>
         && 1 <= a.rule <= |grammar|
         && (forall i :: 0 <= i < a.rule - 1 ==> Erase(grammar[i]) != Erase(grammar[a.rule - 1]))
         && exists j :: && k.0 < |sets| && 0 <= j < |sets[k.0].items|
                        && sets[k.0].items[j].rule == Erase(grammar[a.rule - 1])
                        && IsAtEnd(sets[k.0].items[j])
                        && exists x :: x in sets[k.0].items[j].lookahead && x.name == k.1)
  }

  /** Every completed item of the augmented rule or of a grammar rule has a cell under each
      of its lookahead names, and that cell holds an accept or a reduction, not a shift. */
  ghost predicate ReductionsWritten(grammar: seq<Production>, aug: Rule, sets: seq<ItemSet>, action: map<(nat, string), Act>) {
    forall i, j, x :: && 0 <= i < |sets| && 0 <= j < |sets[i].items| && x in sets[i].items[j].lookahead
                      && IsAtEnd(sets[i].items[j]) && (sets[i].items[j].rule == aug || sets[i].items[j].rule in EraseAll(grammar))
                      ==> (i, x.name) in action && !action[(i, x.name)].Shift?
  }

  /** `b` has the shape of `a`: the same numbers, transitions and item cores. */
  predicate SameShape(a: seq<ItemSet>, b: seq<ItemSet>) {
    && |a| == |b|
    && forall i :: 0 <= i < |a| ==>
      a[i].number == b[i].number && a[i].next == b[i].next && Core(a[i].items) == Core(b[i].items)
  }

  /** The transition graph of finished item sets: the cores are pairwise distinct, the
      transitions of a set are its groups in order and each leads to the set holding the
      successor's core, and every set but state 0 is the target of an earlier set. */
  ghost predicate GraphOk(g: seq<Rule>, sets: seq<ItemSet>) {
    && NoDup(Cores(sets))
    && (forall i :: 0 <= i < |sets| ==> EdgesOk(g, sets, i))
    && Reached(sets, |sets|)
  }

  /** The goto table holds exactly the nonterminal transitions. */
  ghost predicate GotosOk(sets: seq<ItemSet>, goto: map<(nat, string), nat>) {
    && (forall k: (nat, string) :: k in goto ==> k.0 < |sets| && (Sym(k.1, Nonterminal), goto[k]) in sets[k.0].next)
    && (forall i, e :: 0 <= i < |sets| && e in sets[i].next && e.0.kind == Nonterminal ==>
          (i, e.0.name) in goto && goto[(i, e.0.name)] == e.1)
  }

  /** The action table of createSets holds exactly the shifts of the terminal transitions. */
  ghost predicate ShiftTable(sets: seq<ItemSet>, action: map<(nat, string), Act>) {
    && (forall k: (nat, string) :: k in action ==>
          action[k].Shift? && k.0 < |sets| && (Sym(k.1, Terminal), action[k].target) in sets[k.0].next)
    && (forall i, e :: 0 <= i < |sets| && e in sets[i].next && e.0.kind == Terminal ==>
          (i, e.0.name) in action && action[(i, e.0.name)] == Shift(e.1))
  }

  /** The shifts of the final action table: every shift cell is a terminal transition, and
      every terminal transition keeps its cell, which still shifts to the transition's target
      unless a reduction or accept overwrote it. */
  ghost predicate ShiftsOk(sets: seq<ItemSet>, action: map<(nat, string), Act>) {
    && (forall k: (nat, string) :: k in action && action[k].Shift? ==>
          k.0 < |sets| && (Sym(k.1, Terminal), action[k].target) in sets[k.0].next)
    && (forall i, e :: 0 <= i < |sets| && e in sets[i].next && e.0.kind == Terminal ==>
          (i, e.0.name) in action && (action[(i, e.0.name)].Shift? ==> action[(i, e.0.name)] == Shift(e.1)))
  }

  /** A cell written by an item of its own state is explained by that item. */
  lemma WrittenCell(grammar: seq<Production>, aug: Rule, sets: seq<ItemSet>, k: (nat, string), a: Act, i: nat, j: nat)
    requires i < |sets| && j < |sets[i].items| && sets[i].number == i && k.0 == i
    requires Some(a) == ItemAction(EraseAll(grammar), aug, sets[i].items[j])
    requires exists x :: x in sets[i].items[j].lookahead && x.name == k.1
    ensures CellExplained(grammar, aug, sets, k, a)
  {
  }

  /** One cell of the final action table. */
  lemma ActionCell(grammar: seq<Production>, aug: Rule, sets: seq<ItemSet>,
                   action0: map<(nat, string), Act>, action: map<(nat, string), Act>, k: (nat, string))
    requires forall i :: 0 <= i < |sets| ==> sets[i].number == i
    requires forall k: (nat, string) :: k in action0 ==> action0[k].Shift?
    requires Defined(EraseAll(grammar), aug, sets, action0, action)
    requires k in action
    ensures CellExplained(grammar, aug, sets, k, action[k])
  {
    var g := EraseAll(grammar);
    CellSource(g, aug, sets, action0, action, k);
    if !(k in action0 && action[k] == action0[k]) {
      var i, j :| && 0 <= i < |sets| && 0 <= j < |sets[i].items|
                  && k.0 == sets[i].number
                  && Some(action[k]) == ItemAction(g, aug, sets[i].items[j])
                  && exists x :: x in sets[i].items[j].lookahead && x.name == k.1;
      WrittenCell(grammar, aug, sets, k, action[k], i, j);
    }
  }

  /** The cells of the final action table, all at once. */
  lemma ActionCells(grammar: seq<Production>, aug: Rule, sets: seq<ItemSet>,
                    action0: map<(nat, string), Act>, action: map<(nat, string), Act>)
    requires forall i :: 0 <= i < |sets| ==> sets[i].number == i
    requires forall k: (nat, string) :: k in action0 ==> action0[k].Shift?
    requires Defined(EraseAll(grammar), aug, sets, action0, action)
    ensures forall k: (nat, string) :: k in action ==> CellExplained(grammar, aug, sets, k, action[k])
  {
    forall k: (nat, string) | k in action
      ensures CellExplained(grammar, aug, sets, k, action[k])
    {
      ActionCell(grammar, aug, sets, action0, action, k);
    }
  }

  /** Every completed item of the augmented rule or of a grammar rule writes its cells. */
  lemma AllReductionsWritten(grammar: seq<Production>, aug: Rule, sets: seq<ItemSet>,
                             action0: map<(nat, string), Act>, action: map<(nat, string), Act>)
    requires forall i :: 0 <= i < |sets| ==> sets[i].number == i
    requires Defined(EraseAll(grammar), aug, sets, action0, action)
    ensures ReductionsWritten(grammar, aug, sets, action)
  {
    var g := EraseAll(grammar);
    forall i, j, x | && 0 <= i < |sets| && 0 <= j < |sets[i].items| && x in sets[i].items[j].lookahead
                     && IsAtEnd(sets[i].items[j]) && (sets[i].items[j].rule == aug || sets[i].items[j].rule in g)
      ensures (i, x.name) in action && !action[(i, x.name)].Shift?
    {
      assert ItemAction(g, aug, sets[i].items[j]).Some?;
      CellWritten(g, aug, sets, action0, action, i, j, x);
    }
  }

  /** The graph facts of createSets hold for any item sets of the same shape: transitions
      and cores are all they speak of. */
  lemma EdgesOfShape(g: seq<Rule>, sets: seq<ItemSet>, derived: seq<ItemSet>, i: nat)
    requires SameShape(sets, derived) && i < |sets| && EdgesOk(g, sets, i)
    ensures EdgesOk(g, derived, i)
  {
    var xs := DotSymbols(sets[i].items);
    DotSymbolsOfCore(sets[i].items, derived[i].items);
    forall m | 0 <= m < |xs|
      ensures Core(derived[derived[i].next[m].1].items) == Core(Goto(g, derived[i].items, xs[m]))
    {
      GotoOfCore(g, sets[i].items, derived[i].items, xs[m]);
    }
  }

  /** The finished construction's graph survives the lookahead phases. */
  lemma GraphOfShape(g: seq<Rule>, start: Sym, sets: seq<ItemSet>, t: Tables, derived: seq<ItemSet>)
    requires Built(g, start, sets, |sets|, t) && Reached(sets, |sets|)
    requires SameShape(sets, derived)
    ensures GraphOk(g, derived)
  {
    assert Cores(derived) == Cores(sets);
    forall i | 0 <= i < |derived|
      ensures EdgesOk(g, derived, i)
    {
      EdgesOfShape(g, sets, derived, i);
    }
    forall i | 0 < i < |derived|
      ensures ReachedFrom(derived, |derived|, i)
    {
      assert ReachedFrom(sets, |sets|, i);
      var j :| 0 <= j < |sets| && j < i && IsTarget(sets[j].next, i);
      assert derived[j].next == sets[j].next;
    }
  }

  /** The goto cells of createSets are the nonterminal transitions, in any sets of the same
      shape. */
  lemma GotosOfShape(sets: seq<ItemSet>, t: Tables, derived: seq<ItemSet>)
    requires TableKeysOk(sets, |sets|, t)
    requires forall i :: 0 <= i < |sets| ==> TablesOk(sets, i, t)
    requires SameShape(sets, derived)
    ensures GotosOk(derived, t.goto)
  {
    forall k: (nat, string) | k in t.goto
      ensures k.0 < |derived| && (Sym(k.1, Nonterminal), t.goto[k]) in derived[k.0].next
    {
      var e :| e in sets[k.0].next && e.0 == Sym(k.1, Nonterminal);
      assert TablesOk(sets, k.0, t);
      assert derived[k.0].next == sets[k.0].next;
    }
    forall i, e | 0 <= i < |derived| && e in derived[i].next && e.0.kind == Nonterminal
      ensures (i, e.0.name) in t.goto && t.goto[(i, e.0.name)] == e.1
    {
      assert derived[i].next == sets[i].next;
      assert TablesOk(sets, i, t);
    }
  }

  /** The action cells of createSets are the shifts of the terminal transitions, in any sets
      of the same shape. */
  lemma ShiftsOfShape(sets: seq<ItemSet>, t: Tables, derived: seq<ItemSet>)
    requires TableKeysOk(sets, |sets|, t)
    requires forall i :: 0 <= i < |sets| ==> TablesOk(sets, i, t)
    requires SameShape(sets, derived)
    ensures ShiftTable(derived, t.action)
  {
    forall k: (nat, string) | k in t.action
      ensures t.action[k].Shift? && k.0 < |derived| && (Sym(k.1, Terminal), t.action[k].target) in derived[k.0].next
    {
      var e :| e in sets[k.0].next && e.0 == Sym(k.1, Terminal);
      assert TablesOk(sets, k.0, t);
      assert derived[k.0].next == sets[k.0].next;
    }
    forall i, e | 0 <= i < |derived| && e in derived[i].next && e.0.kind == Terminal
      ensures (i, e.0.name) in t.action && t.action[(i, e.0.name)] == Shift(e.1)
    {
      assert derived[i].next == sets[i].next;
      assert TablesOk(sets, i, t);
    }
  }

  /** The tables of the finished construction are the transitions' entries, whatever the
      lookaheads of sets of the same shape. */
  lemma TablesOfShape(g: seq<Rule>, start: Sym, sets: seq<ItemSet>, t: Tables, derived: seq<ItemSet>)
    requires Built(g, start, sets, |sets|, t)
    requires SameShape(sets, derived)
    ensures GotosOk(derived, t.goto) && ShiftTable(derived, t.action)
  {
    assert TableKeysOk(sets, |sets|, t);
    assert forall i :: 0 <= i < |sets| ==> TablesOk(sets, i, t);
    GotosOfShape(sets, t, derived);
    ShiftsOfShape(sets, t, derived);
  }

  /** defineActions keeps the createSets shifts it does not overwrite. */
  lemma FinalShifts(sets: seq<ItemSet>, action0: map<(nat, string), Act>, action: map<(nat, string), Act>)
    requires ShiftTable(sets, action0)
    requires forall k: (nat, string) :: k in action0 ==> k in action
    requires forall k: (nat, string) :: k in action && action[k].Shift? ==> k in action0 && action[k] == action0[k]
    ensures ShiftsOk(sets, action)
  {
  }

  /** Bounds that follow from the graph: every goto and shift targets an existing state. */
  lemma TargetsExist(g: seq<Rule>, sets: seq<ItemSet>, goto: map<(nat, string), nat>, action: map<(nat, string), Act>)
    requires GraphOk(g, sets) && GotosOk(sets, goto) && ShiftsOk(sets, action)
    ensures forall k: (nat, string) :: k in goto ==> k.0 < |sets| && goto[k] < |sets|
    ensures forall k: (nat, string) :: k in action && action[k].Shift? ==> action[k].target < |sets|
  {
    forall k: (nat, string) | k in goto
      ensures goto[k] < |sets|
    {
      var m :| 0 <= m < |sets[k.0].next| && sets[k.0].next[m] == (Sym(k.1, Nonterminal), goto[k]);
      assert EdgesOk(g, sets, k.0);
    }
    forall k: (nat, string) | k in action && action[k].Shift?
      ensures action[k].target < |sets|
    {
      var m :| 0 <= m < |sets[k.0].next| && sets[k.0].next[m] == (Sym(k.1, Terminal), action[k].target);
      assert EdgesOk(g, sets, k.0);
    }
  }

  /** The item sets after propagation and derivation keep the shape createSets gave them. */
  lemma DerivedSetsOk(sets: seq<ItemSet>, grown: seq<ItemSet>, derived: seq<ItemSet>)
    requires SetsGrow(sets, grown)
    requires |derived| == |grown|
    requires forall i :: 0 <= i < |derived| ==>
      && derived[i].number == grown[i].number && derived[i].next == grown[i].next
      && Core(derived[i].items) == Core(grown[i].items)
    ensures SameShape(sets, derived)
  {
    forall i | 0 <= i < |derived|
      ensures Core(derived[i].items) == Core(sets[i].items)
    {
      assert Grows(sets[i].items, grown[i].items);
    }
  }

  /** createSets on the augmented grammar: the finished construction (state 0 with the start
      core, numbers that are positions, distinct cores, transitions to the successor cores,
      the transitions' shift and goto cells and no others) with every set reached, item sets
      fit for the propagation, and in-range table cells. */
  method CreateTables(g: seq<Rule>, start: Sym) returns (sets: seq<ItemSet>, t: Tables)
    requires AugRule(start) !in g
    ensures Built(g, start, sets, |sets|, t) && Reached(sets, |sets|)
    ensures |sets| > 0 && sets[0].items == InitialItems(g, start)
    ensures forall i :: 0 <= i < |sets| ==> sets[i].number == i
    ensures SetsOk(g + [AugRule(start)], sets) && TargetsOk(sets)
    ensures forall k: (nat, string) :: k in t.action ==> t.action[k].Shift? && t.action[k].target < |sets|
    ensures forall k: (nat, string) :: k in t.goto ==> k.0 < |sets| && t.goto[k] < |sets|
  {
    sets, t := BuildSets(g, start);
    BuiltIsPropagatable(g, start, sets, t);
    TablesBounded(g, start, sets, t);
  }

  /** propagateLookaheads then deriveLookaheads: the sets keep their numbers, transitions
      and cores (so state 0 keeps the start core), and every lookahead ends up a terminal. */
  method ComputeLookaheads(g: seq<Rule>, start: Sym, sets: seq<ItemSet>) returns (derived: seq<ItemSet>)
    requires |sets| > 0 && Core(sets[0].items) == Core(InitialItems(g, start))
    requires forall i :: 0 <= i < |sets| ==> sets[i].number == i
    requires SetsOk(g + [AugRule(start)], sets) && TargetsOk(sets)
    ensures SameShape(sets, derived)
    ensures |derived| == |sets|
    ensures Core(derived[0].items) == Core(InitialItems(g, start))
    ensures forall i :: 0 <= i < |derived| ==> derived[i].number == i
    ensures forall i, j, x :: 0 <= i < |derived| && 0 <= j < |derived[i].items| && x in derived[i].items[j].lookahead ==>
      x.kind == Terminal
    ensures forall i, j, x :: 0 <= i < |sets| && 0 <= j < |sets[i].items| && x in sets[i].items[j].lookahead && x.kind == Terminal ==>
      x in derived[i].items[j].lookahead
  {
    var grown := Propagate(g + [AugRule(start)], start, sets);
    derived := DeriveAll(g, grown);
    DerivedSetsOk(sets, grown, derived);
    TerminalsKept(g, sets, grown, derived);
  }

  /** A terminal lookahead survives propagation (lookaheads only grow) and derivation (a
      terminal leads to itself by the empty chain). */
  lemma TerminalsKept(g: seq<Rule>, sets: seq<ItemSet>, grown: seq<ItemSet>, derived: seq<ItemSet>)
    requires SetsGrow(sets, grown) && |derived| == |grown|
    requires forall i :: 0 <= i < |derived| ==> |derived[i].items| == |grown[i].items|
    requires forall i, j, x :: 0 <= i < |derived| && 0 <= j < |derived[i].items| ==>
      (x in derived[i].items[j].lookahead <==> x.kind == Terminal && Leads(g, grown[i].items[j].lookahead, x))
    ensures forall i, j, x :: 0 <= i < |sets| && 0 <= j < |sets[i].items| && x in sets[i].items[j].lookahead && x.kind == Terminal ==>
      x in derived[i].items[j].lookahead
  {
    forall i, j, x | 0 <= i < |sets| && 0 <= j < |sets[i].items| && x in sets[i].items[j].lookahead && x.kind == Terminal
      ensures x in derived[i].items[j].lookahead
    {
      assert Grows(sets[i].items, grown[i].items);
      assert Path(g, [x]);
    }
  }

  /** defineActions over the derived item sets, with what its cells mean: accept and reduce
      cells are explained by completed items of their state; every completed item writes
      its cells; a shift cell is a createSets shift left as it was, and no createSets cell
      is dropped. */
  method WriteActions(grammar: seq<Production>, aug: Rule, sets: seq<ItemSet>, action0: map<(nat, string), Act>)
    returns (action: map<(nat, string), Act>)
    requires forall i :: 0 <= i < |sets| ==> sets[i].number == i
    requires forall k: (nat, string) :: k in action0 ==> action0[k].Shift?
    ensures forall k: (nat, string) :: k in action ==> CellExplained(grammar, aug, sets, k, action[k])
    ensures ReductionsWritten(grammar, aug, sets, action)
    ensures forall k: (nat, string) :: k in action0 ==> k in action
    ensures forall k: (nat, string) :: k in action && action[k].Shift? ==> k in action0 && action[k] == action0[k]
  {
    action := DefineActions(EraseAll(grammar), aug, sets, action0);
    ActionCells(grammar, aug, sets, action0, action);
    AllReductionsWritten(grammar, aug, sets, action0, action);
    ShiftKept(EraseAll(grammar), aug, sets, action0, action);
  }

  /**
   * generateTables.  The grammar must not already contain the augmented rule (the model's
   * termination argument counts the distinct (rule, dot) cores of the augmented grammar).
   * State 0 has the core of the closure of the augmented start item; set numbers are
   * positions; the transition graph is the one createSets built; every lookahead is a
   * terminal; an Accept cell is written by a completed augmented item and a Reduce k cell
   * by a completed item of the k-th grammar rule and no earlier equal one, each under a
   * lookahead name; every completed item writes its cells; shift and goto cells are the
   * transitions'; the type names are collected; the substitution gains "$" to "_EOF".
   */
  method GenerateTables(grammar: seq<Production>, start: Symbol, subst0: map<string, string>)
    returns (out: Generated)
    requires AugRule(Key(start)) !in EraseAll(grammar)
    ensures |out.sets| > 0
    ensures Core(out.sets[0].items) == Core(InitialItems(EraseAll(grammar), Key(start)))
    ensures out.sets[0].items[0].rule == Erase(Augment(start)) && out.sets[0].items[0].dot == 0
    ensures EndMarker in out.sets[0].items[0].lookahead
    ensures forall i :: 0 <= i < |out.sets| ==> out.sets[i].number == i
    ensures GraphOk(EraseAll(grammar), out.sets)
    ensures forall i, j, x :: 0 <= i < |out.sets| && 0 <= j < |out.sets[i].items| && x in out.sets[i].items[j].lookahead ==>
      x.kind == Terminal
    ensures forall k: (nat, string) :: k in out.action ==> CellExplained(grammar, Erase(Augment(start)), out.sets, k, out.action[k])
    ensures ReductionsWritten(grammar, Erase(Augment(start)), out.sets, out.action)
    ensures ShiftsOk(out.sets, out.action)
    ensures GotosOk(out.sets, out.goto)
    ensures forall k: (nat, string) :: k in out.goto ==> k.0 < |out.sets| && out.goto[k] < |out.sets|
    ensures forall k: (nat, string) :: k in out.action && out.action[k].Shift? ==> out.action[k].target < |out.sets|
    ensures forall x :: x in out.expressions <==> exists i :: 0 <= i < |grammar| && grammar[i].lhs.name == x
    ensures forall x :: x in out.tokens <==>
      exists i, k :: 0 <= i < |grammar| && 0 <= k < |grammar[i].rhs| && grammar[i].rhs[k].trackInExp && grammar[i].rhs[k].name == x
    ensures out.subst == subst0["$" := "_EOF"]
  {
    var g := EraseAll(grammar);
    var s := Key(start);
    var aug := AugRule(s);
    AugmentErases(start);
    var sets, t := CreateTables(g, s);
    var derived := ComputeLookaheads(g, s, sets);
    GraphOfShape(g, s, sets, t, derived);
    TablesOfShape(g, s, sets, t, derived);
    var action := WriteActions(grammar, aug, derived, t.action);
    FinalShifts(derived, t.action, action);
    TargetsExist(g, derived, t.goto, action);
    var expressions, tokens := GenerateTypes(grammar);
    out := Generated(derived, action, t.goto, expressions, tokens, subst0["$" := "_EOF"]);
  }
}
