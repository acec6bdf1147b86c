/**
 * The last steps of generateTables and the table metadata of generateParser
 * (Peg/src/peg.cpp): the accept and reduce entries of the action table, the per-production
 * reduction metadata, the name sets used for the generated node and token types, and the
 * symbol-name substitution.
 */
module Actions {
  import opened Wrappers
  import opened Grammar
  import opened ItemSets

  /** The first grammar index holding rule `r`. */
  function FirstIndex(g: seq<Rule>, r: Rule): (o: Option<nat>)
    ensures o.None? <==> r !in g
    ensures o.Some? ==> o.value < |g| && g[o.value] == r && forall j :: 0 <= j < o.value ==> g[j] != r
  {
    if g == [] then None
    else if g[0] == r then Some(0)
    else match FirstIndex(g[1..], r)
      case None => None
      case Some(i) => Some(i + 1)
  }

  /** The entry a completed item asks for: Accept for the augmented rule, otherwise a
      reduction by the 1-based number of the first equal grammar rule.  An item that is not
      completed, or whose rule is not in the grammar, writes nothing. */
  function ItemAction(g: seq<Rule>, aug: Rule, it: Item): (o: Option<Act>)
    ensures o.Some? ==> IsAtEnd(it)
    ensures IsAtEnd(it) && it.rule == aug ==> o == Some(Accept)
    ensures o == Some(Accept) ==> it.rule == aug
    ensures o.Some? && o.value.Reduce? ==>
      1 <= o.value.rule <= |g| && g[o.value.rule - 1] == it.rule && it.rule != aug
      && forall j :: 0 <= j < o.value.rule - 1 ==> g[j] != it.rule
    ensures IsAtEnd(it) && it.rule != aug && it.rule in g ==> o.Some? && o.value.Reduce?
    ensures IsAtEnd(it) && it.rule != aug && it.rule !in g ==> o.None?
    ensures o != Some(Shift(0)) && (o.Some? ==> !o.value.Shift?)
  {
    if !IsAtEnd(it) then None
    else if it.rule == aug then Some(Accept)
    else match FirstIndex(g, it.rule)
      case None => None
      case Some(i) => Some(Reduce(i + 1))
  }

  /** The items in the order defineActions visits them: sets in order, items in order,
      each paired with its set's number. */
  function Visits(sets: seq<ItemSet>): seq<(nat, Item)>
    decreases |sets|
  {
    if sets == [] then []
    else
      var front, last := sets[..|sets| - 1], sets[|sets| - 1];
      assert forall i :: 0 <= i < |front| ==> front[i] == sets[i];
      Visits(front) + seq(|last.items|, j requires 0 <= j < |last.items| => (last.number, last.items[j]))
  }

  /** Every item of every set is visited, paired with its set's number, and nothing else is. */
  lemma {:induction false} VisitsFrom(sets: seq<ItemSet>)
    ensures forall i, j :: 0 <= i < |sets| && 0 <= j < |sets[i].items| ==> (sets[i].number, sets[i].items[j]) in Visits(sets)
    ensures forall v :: v in Visits(sets) ==> exists i :: 0 <= i < |sets| && v.0 == sets[i].number && v.1 in sets[i].items
    decreases |sets|
  {
    if sets != [] {
      var front, last := sets[..|sets| - 1], sets[|sets| - 1];
      VisitsFrom(front);
      var tail := seq(|last.items|, j requires 0 <= j < |last.items| => (last.number, last.items[j]));
      assert Visits(sets) == Visits(front) + tail;
      forall i, j | 0 <= i < |sets| && 0 <= j < |sets[i].items|
        ensures (sets[i].number, sets[i].items[j]) in Visits(sets)
      {
        if i < |front| {
          assert front[i] == sets[i];
        } else {
          assert tail[j] == (sets[i].number, sets[i].items[j]);
        }
      }
      forall v | v in Visits(sets)
        ensures exists i :: 0 <= i < |sets| && v.0 == sets[i].number && v.1 in sets[i].items
      {
        if v in Visits(front) {
          var i :| 0 <= i < |front| && v.0 == front[i].number && v.1 in front[i].items;
          assert front[i] == sets[i];
        } else {
          assert v in tail;
          assert v.0 == sets[|sets| - 1].number && v.1 in sets[|sets| - 1].items;
        }
      }
    }
  }

  /** Visit `v` writes table cell `k`: its item asks for an entry, `k` is in its set and
      names one of its lookahead symbols.  Cells are keyed by symbol name alone. */
  ghost predicate Writes(g: seq<Rule>, aug: Rule, v: (nat, Item), k: (nat, string)) {
    && ItemAction(g, aug, v.1).Some?
    && k.0 == v.0
    && exists x :: x in v.1.lookahead && x.name == k.1
  }

  /** Among the first `m` visits, `p` is the last one that writes `k`. */
  ghost predicate LastWrite(g: seq<Rule>, aug: Rule, vs: seq<(nat, Item)>, m: nat, k: (nat, string), p: nat)
    requires m <= |vs|
  {
    && p < m
    && Writes(g, aug, vs[p], k)
    && forall q :: p < q < m ==> !Writes(g, aug, vs[q], k)
  }

  /** The cells present after the first `m` visits: the old ones and the written ones. */
  ghost predicate DomainAfter(g: seq<Rule>, aug: Rule, vs: seq<(nat, Item)>, m: nat,
                              action0: map<(nat, string), Act>, action: map<(nat, string), Act>)
    requires m <= |vs|
  {
    forall k :: k in action <==> k in action0 || exists p :: 0 <= p < m && Writes(g, aug, vs[p], k)
  }

  /** After the first `m` visits, a written cell holds the entry of its last writer. */
  ghost predicate LastAfter(g: seq<Rule>, aug: Rule, vs: seq<(nat, Item)>, m: nat, action: map<(nat, string), Act>)
    requires m <= |vs|
  {
    forall k, p: nat :: LastWrite(g, aug, vs, m, k, p) ==> k in action && Some(action[k]) == ItemAction(g, aug, vs[p].1)
  }

  /** After the first `m` visits, an old cell nobody wrote is unchanged. */
  ghost predicate KeptAfter(g: seq<Rule>, aug: Rule, vs: seq<(nat, Item)>, m: nat,
                            action0: map<(nat, string), Act>, action: map<(nat, string), Act>)
    requires m <= |vs|
  {
    forall k :: k in action0 && (forall p :: 0 <= p < m ==> !Writes(g, aug, vs[p], k)) ==> k in action && action[k] == action0[k]
  }

  /** Write `a` into every cell of state `n` named by a symbol of `la`. */
  function WriteAll(action: map<(nat, string), Act>, n: nat, la: set<Sym>, a: Act): (r: map<(nat, string), Act>)
    ensures forall k :: k in r <==> k in action || (k.0 == n && exists x :: x in la && x.name == k.1)
    ensures forall k :: k in r && k.0 == n && (exists x :: x in la && x.name == k.1) ==> r[k] == a
    ensures forall k :: k in action && !(k.0 == n && exists x :: x in la && x.name == k.1) ==> r[k] == action[k]
  {
    var names := set x | x in la :: x.name;
    action + map nm | nm in names :: (n, nm) := a
  }

  /** The table after visit `m`. */
  function Visit(g: seq<Rule>, aug: Rule, vs: seq<(nat, Item)>, m: nat, action: map<(nat, string), Act>): map<(nat, string), Act>
    requires m < |vs|
  {
    var o := ItemAction(g, aug, vs[m].1);
    if o.Some? then WriteAll(action, vs[m].0, vs[m].1.lookahead, o.value) else action
  }

  /** Visit `m` adds exactly the cells it writes. */
  lemma VisitCells(g: seq<Rule>, aug: Rule, vs: seq<(nat, Item)>, m: nat, action: map<(nat, string), Act>)
    requires m < |vs|
    ensures forall k :: k in Visit(g, aug, vs, m, action) <==> k in action || Writes(g, aug, vs[m], k)
  {
  }

  lemma DomainStep(g: seq<Rule>, aug: Rule, vs: seq<(nat, Item)>, m: nat,
                   action0: map<(nat, string), Act>, action: map<(nat, string), Act>)
    requires m < |vs| && DomainAfter(g, aug, vs, m, action0, action)
    ensures DomainAfter(g, aug, vs, m + 1, action0, Visit(g, aug, vs, m, action))
  {
    VisitCells(g, aug, vs, m, action);
    DomainExtend(g, aug, vs, m, action0, action, Visit(g, aug, vs, m, action));
  }

  /** The cells written by the first `m + 1` visits are those of the first `m` and those of
      visit `m`. */
  lemma DomainExtend(g: seq<Rule>, aug: Rule, vs: seq<(nat, Item)>, m: nat,
                     action0: map<(nat, string), Act>, action: map<(nat, string), Act>, action': map<(nat, string), Act>)
    requires m < |vs| && DomainAfter(g, aug, vs, m, action0, action)
    requires forall k :: k in action' <==> k in action || Writes(g, aug, vs[m], k)
    ensures DomainAfter(g, aug, vs, m + 1, action0, action')
  {
    forall k
      ensures k in action' <==> k in action0 || exists p :: 0 <= p < m + 1 && Writes(g, aug, vs[p], k)
    {
      if (exists p :: 0 <= p < m + 1 && Writes(g, aug, vs[p], k)) && !(exists p :: 0 <= p < m && Writes(g, aug, vs[p], k)) {
        assert Writes(g, aug, vs[m], k);
      }
    }
  }

  lemma LastStep(g: seq<Rule>, aug: Rule, vs: seq<(nat, Item)>, m: nat, action: map<(nat, string), Act>)
    requires m < |vs| && LastAfter(g, aug, vs, m, action)
    ensures LastAfter(g, aug, vs, m + 1, Visit(g, aug, vs, m, action))
  {
    var action' := Visit(g, aug, vs, m, action);
    forall k, p: nat | LastWrite(g, aug, vs, m + 1, k, p)
      ensures k in action' && Some(action'[k]) == ItemAction(g, aug, vs[p].1)
    {
      if p < m {
        assert LastWrite(g, aug, vs, m, k, p);
        assert !Writes(g, aug, vs[m], k);
      }
    }
  }

  lemma KeptStep(g: seq<Rule>, aug: Rule, vs: seq<(nat, Item)>, m: nat,
                 action0: map<(nat, string), Act>, action: map<(nat, string), Act>)
    requires m < |vs| && KeptAfter(g, aug, vs, m, action0, action)
    ensures KeptAfter(g, aug, vs, m + 1, action0, Visit(g, aug, vs, m, action))
  {
    var action' := Visit(g, aug, vs, m, action);
    forall k | k in action0 && (forall p :: 0 <= p < m + 1 ==> !Writes(g, aug, vs[p], k))
      ensures k in action' && action'[k] == action0[k]
    {
      assert !Writes(g, aug, vs[m], k);
    }
  }

  /** The whole loop invariant of defineActions after the first `m` visits. */
  ghost predicate DefinedAfter(g: seq<Rule>, aug: Rule, vs: seq<(nat, Item)>, m: nat,
                               action0: map<(nat, string), Act>, action: map<(nat, string), Act>)
    requires m <= |vs|
  {
    && DomainAfter(g, aug, vs, m, action0, action)
    && LastAfter(g, aug, vs, m, action)
    && KeptAfter(g, aug, vs, m, action0, action)
  }

  /** Before any visit the table is the old one. */
  lemma NothingVisited(g: seq<Rule>, aug: Rule, vs: seq<(nat, Item)>, action0: map<(nat, string), Act>)
    ensures DefinedAfter(g, aug, vs, 0, action0, action0)
  {
  }

  /** One visit keeps the invariant. */
  lemma VisitStep(g: seq<Rule>, aug: Rule, vs: seq<(nat, Item)>, m: nat,
                  action0: map<(nat, string), Act>, action: map<(nat, string), Act>)
    requires m < |vs| && DefinedAfter(g, aug, vs, m, action0, action)
    ensures DefinedAfter(g, aug, vs, m + 1, action0, Visit(g, aug, vs, m, action))
  {
    DomainStep(g, aug, vs, m, action0, action);
    LastStep(g, aug, vs, m, action);
    KeptStep(g, aug, vs, m, action0, action);
  }

  /** The table defineActions leaves: the invariant after every visit. */
  ghost predicate Defined(g: seq<Rule>, aug: Rule, sets: seq<ItemSet>,
                          action0: map<(nat, string), Act>, action: map<(nat, string), Act>) {
    DefinedAfter(g, aug, Visits(sets), |Visits(sets)|, action0, action)
  }

  /**
   * defineActions: every completed item of every set writes its entry under each of its
   * lookahead names, with plain map assignment.  So a cell ends up holding the entry of the
   * LAST visit that writes it, overwriting a shift from createSets or an earlier reduction;
   * a cell nobody writes keeps its old entry; and no other cells appear.
   */
  method DefineActions(g: seq<Rule>, aug: Rule, sets: seq<ItemSet>, action0: map<(nat, string), Act>)
    returns (action: map<(nat, string), Act>)
    ensures Defined(g, aug, sets, action0, action)
  {
    var vs := Visits(sets);
    action := action0;
    NothingVisited(g, aug, vs, action0);
    for m := 0 to |vs|
      invariant DefinedAfter(g, aug, vs, m, action0, action)
    {
      VisitStep(g, aug, vs, m, action0, action);
      action := Visit(g, aug, vs, m, action);
    }
  }

  lemma {:induction false} LastWriteExists(g: seq<Rule>, aug: Rule, vs: seq<(nat, Item)>, m: nat, k: (nat, string), p0: nat)
    requires p0 < m <= |vs| && Writes(g, aug, vs[p0], k)
    ensures exists p: nat :: LastWrite(g, aug, vs, m, k, p)
    decreases m - p0
  {
    if !LastWrite(g, aug, vs, m, k, p0) {
      var q :| p0 < q < m && Writes(g, aug, vs[q], k);
      LastWriteExists(g, aug, vs, m, k, q);
    }
  }

  /** After defineActions every cell is either an old cell that nobody wrote, or holds the
      entry of a completed item of that cell's state whose lookahead names the cell. */
  lemma CellSource(g: seq<Rule>, aug: Rule, sets: seq<ItemSet>,
                   action0: map<(nat, string), Act>, action: map<(nat, string), Act>, k: (nat, string))
    requires Defined(g, aug, sets, action0, action)
    requires k in action
    ensures || (k in action0 && action[k] == action0[k])
            || exists i, j :: && 0 <= i < |sets| && 0 <= j < |sets[i].items|
                              && k.0 == sets[i].number
                              && Some(action[k]) == ItemAction(g, aug, sets[i].items[j])
                              && exists x :: x in sets[i].items[j].lookahead && x.name == k.1
  {
    var vs := Visits(sets);
    if exists p :: 0 <= p < |vs| && Writes(g, aug, vs[p], k) {
      var p0 :| 0 <= p0 < |vs| && Writes(g, aug, vs[p0], k);
      LastWriteExists(g, aug, vs, |vs|, k, p0);
      var p: nat :| LastWrite(g, aug, vs, |vs|, k, p);
      VisitsFrom(sets);
      assert vs[p] in vs;
      var i :| 0 <= i < |sets| && vs[p].0 == sets[i].number && vs[p].1 in sets[i].items;
      var j :| 0 <= j < |sets[i].items| && sets[i].items[j] == vs[p].1;
    }
  }

  /** defineActions writes no shift, so a shift cell after it is an old cell left as it was;
      and no old cell disappears. */
  lemma ShiftKept(g: seq<Rule>, aug: Rule, sets: seq<ItemSet>,
                  action0: map<(nat, string), Act>, action: map<(nat, string), Act>)
    requires Defined(g, aug, sets, action0, action)
    ensures forall k :: k in action0 ==> k in action
    ensures forall k :: k in action && action[k].Shift? ==> k in action0 && action[k] == action0[k]
  {
    forall k | k in action && action[k].Shift?
      ensures k in action0 && action[k] == action0[k]
    {
      CellSource(g, aug, sets, action0, action, k);
    }
  }

  /** Every completed item that asks for an entry gets one under each of its lookahead
      names: the cell is present and holds an accept or a reduction (of the last item that
      wrote it), never a shift. */
  lemma {:induction false} CellWritten(g: seq<Rule>, aug: Rule, sets: seq<ItemSet>,
                                       action0: map<(nat, string), Act>, action: map<(nat, string), Act>,
                                       i: nat, j: nat, x: Sym)
    requires Defined(g, aug, sets, action0, action)
    requires i < |sets| && j < |sets[i].items| && x in sets[i].items[j].lookahead
    requires ItemAction(g, aug, sets[i].items[j]).Some?
    ensures (sets[i].number, x.name) in action && !action[(sets[i].number, x.name)].Shift?
  {
    var vs := Visits(sets);
    var k := (sets[i].number, x.name);
    VisitsFrom(sets);
    var v := (sets[i].number, sets[i].items[j]);
    assert v in vs;
    var p0 :| 0 <= p0 < |vs| && vs[p0] == v;
    assert Writes(g, aug, vs[p0], k);
    LastWriteExists(g, aug, vs, |vs|, k, p0);
    var p: nat :| LastWrite(g, aug, vs, |vs|, k, p);
  }

  /** The reduction metadata the generated parser keeps per production. */
  datatype ProdInfo = ProdInfo(lhs: string, rhs: nat, rhsNodes: nat, terminates: bool)

  /** The metadata loop of generateParser: right-hand-side length, number of nonterminals on
      the right, and whether there are none (which is also the case for an empty rule). */
  method Metadata(p: Production) returns (m: ProdInfo)
    ensures m.lhs == p.lhs.name && m.rhs == |p.rhs|
    ensures m.rhsNodes == |set i | 0 <= i < |p.rhs| && p.rhs[i].kind == Nonterminal|
    ensures m.terminates <==> forall i :: 0 <= i < |p.rhs| ==> p.rhs[i].kind == Terminal
    ensures m.rhsNodes <= m.rhs && (m.terminates <==> m.rhsNodes == 0)
  {
    var terminates := true;
    var nonTerminals := 0;
    var i := 0;
    while i < |p.rhs|
      invariant i <= |p.rhs|
      invariant nonTerminals == |set k | 0 <= k < i && p.rhs[k].kind == Nonterminal|
      invariant terminates <==> forall k :: 0 <= k < i ==> p.rhs[k].kind == Terminal
    {
      ghost var before := set k | 0 <= k < i && p.rhs[k].kind == Nonterminal;
      if p.rhs[i].kind == Nonterminal {
        terminates := false;
        nonTerminals := nonTerminals + 1;
        assert (set k | 0 <= k < i + 1 && p.rhs[k].kind == Nonterminal) == before + {i};
      } else {
        assert (set k | 0 <= k < i + 1 && p.rhs[k].kind == Nonterminal) == before;
      }
      i := i + 1;
    }
    NonterminalsBound(p.rhs);
    if nonTerminals == 0 {
      ghost var ns := set k' | 0 <= k' < |p.rhs| && p.rhs[k'].kind == Nonterminal;
      assert ns == {};
      forall k | 0 <= k < |p.rhs|
        ensures p.rhs[k].kind == Terminal
      {
        assert k !in ns;
      }
    } else {
      var k :| k in (set k' | 0 <= k' < |p.rhs| && p.rhs[k'].kind == Nonterminal);
    }
    m := ProdInfo(p.lhs.name, |p.rhs|, nonTerminals, terminates);
  }

  lemma NonterminalsBound(rhs: seq<Symbol>)
    ensures |set k | 0 <= k < |rhs| && rhs[k].kind == Nonterminal| <= |rhs|
  {
    var s := set k | 0 <= k < |rhs| && rhs[k].kind == Nonterminal;
    IndexSetBound(s, |rhs|);
  }

  lemma {:induction false} IndexSetBound(s: set<int>, n: nat)
    requires forall k :: k in s ==> 0 <= k < n
    ensures |s| <= n
    decreases n
  {
    if n > 0 {
      IndexSetBound(s - {n - 1}, n - 1);
    } else {
      forall k | k in s
        ensures false
      {
      }
      assert s == {};
    }
  }

  /** The metadata of every grammar production, in grammar order. */
  method AllMetadata(g: seq<Production>) returns (ms: seq<ProdInfo>)
    ensures |ms| == |g|
    ensures forall i :: 0 <= i < |g| ==> ms[i].lhs == g[i].lhs.name && ms[i].rhs == |g[i].rhs|
    ensures forall i :: 0 <= i < |g| ==> ms[i].rhsNodes <= ms[i].rhs && (ms[i].terminates <==> ms[i].rhsNodes == 0)
    ensures forall i :: 0 <= i < |g| ==>
      (ms[i].terminates <==> forall k :: 0 <= k < |g[i].rhs| ==> g[i].rhs[k].kind == Terminal)
  {
    ms := [];
    var i := 0;
    while i < |g|
      invariant i <= |g| && |ms| == i
      invariant forall j :: 0 <= j < i ==> ms[j].lhs == g[j].lhs.name && ms[j].rhs == |g[j].rhs|
      invariant forall j :: 0 <= j < i ==> ms[j].rhsNodes <= ms[j].rhs && (ms[j].terminates <==> ms[j].rhsNodes == 0)
      invariant forall j :: 0 <= j < i ==>
        (ms[j].terminates <==> forall k :: 0 <= k < |g[j].rhs| ==> g[j].rhs[k].kind == Terminal)
    {
      var m := Metadata(g[i]);
      ms := ms + [m];
      i := i + 1;
    }
  }

  /** generateTypes: the node type names are the left-hand sides, the token type names the
      right-hand-side symbols marked for tracking. */
  method GenerateTypes(g: seq<Production>) returns (expressions: set<string>, tokens: set<string>)
    ensures forall x :: x in expressions <==> exists i :: 0 <= i < |g| && g[i].lhs.name == x
    ensures forall x :: x in tokens <==>
      exists i, k :: 0 <= i < |g| && 0 <= k < |g[i].rhs| && g[i].rhs[k].trackInExp && g[i].rhs[k].name == x
  {
    expressions, tokens := {}, {};
    var i := 0;
    while i < |g|
      invariant i <= |g|
      invariant forall x :: x in expressions <==> exists j :: 0 <= j < i && g[j].lhs.name == x
      invariant forall x :: x in tokens <==>
        exists j, k :: 0 <= j < i && 0 <= k < |g[j].rhs| && g[j].rhs[k].trackInExp && g[j].rhs[k].name == x
    {
      expressions := expressions + {g[i].lhs.name};
      var k := 0;
      while k < |g[i].rhs|
        invariant k <= |g[i].rhs|
        invariant forall x :: x in tokens <==>
          || (exists j, k' :: 0 <= j < i && 0 <= k' < |g[j].rhs| && g[j].rhs[k'].trackInExp && g[j].rhs[k'].name == x)
          || (exists k' :: 0 <= k' < k && g[i].rhs[k'].trackInExp && g[i].rhs[k'].name == x)
      {
        if g[i].rhs[k].trackInExp {
          tokens := tokens + {g[i].rhs[k].name};
        }
        k := k + 1;
      }
      i := i + 1;
    }
  }

  /** getSymbolName: the substituted token type name, or the symbol's own name. */
  function SymbolName(subst: map<string, string>, symbol: string): string {
    if symbol in subst then subst[symbol] else symbol
  }

  /** addSubstitution followed by getSymbolName: the added symbol maps to its new type name,
      every other symbol is named as before. */
  lemma SubstitutionLookup(subst: map<string, string>, symbol: string, tokenType: string, other: string)
    ensures SymbolName(subst[symbol := tokenType], symbol) == tokenType
    ensures other != symbol ==> SymbolName(subst[symbol := tokenType], other) == SymbolName(subst, other)
    ensures other !in subst && other != symbol ==> SymbolName(subst[symbol := tokenType], other) == other
  {
  }
}
