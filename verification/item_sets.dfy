/**
 * Item-set construction of the table generator (Peg/src/peg.cpp, createItemSet, createSets
 * and the first worklist of generateTables).
 *
 * The source keeps its worklist ("set bus") as a FIFO queue into which every new set's
 * number is pushed exactly when the set is appended; the queue therefore always holds the
 * numbers p, p+1, ..., |sets|-1 for the next set p to process, and is modelled by that
 * index.  The source groups the advanceable items of a set in a hash map keyed by the
 * symbol after the dot, whose iteration order is unspecified; the model visits the groups
 * in order of first appearance, and every property below holds up to that renumbering.
 */
module ItemSets {
  import opened Wrappers
  import opened Grammar
  import opened Collections
  import opened Closure

  /** An item set: its number, its items (kernel first, then closure) and its outgoing
      transitions in creation order. */
  datatype ItemSet = ItemSet(number: nat, items: seq<Item>, next: seq<(Sym, nat)>)

  /** A parse action as the generator writes it: "S<n>", "R<k>" or "Accept". */
  datatype Act = Shift(target: nat) | Reduce(rule: nat) | Accept

  /** The action and goto tables, keyed by (state, symbol name). */
  datatype Tables = Tables(action: map<(nat, string), Act>, goto: map<(nat, string), nat>)

  /** `it` can be advanced over `x`. */
  predicate Advanceable(it: Item, x: Sym) {
    !IsAtEnd(it) && DotSymbol(it) == x
  }

  /** The symbols after the dots of advanceable items, each once, in order of first
      appearance: the groups of createSets. */
  function DotSymbols(items: seq<Item>): (xs: seq<Sym>)
    ensures NoDup(xs)
    ensures forall x :: x in xs <==> exists i :: 0 <= i < |items| && Advanceable(items[i], x)
    decreases |items|
  {
    if items == [] then []
    else
      var front, last := items[..|items| - 1], items[|items| - 1];
      var xs0 := DotSymbols(front);
      assert forall i :: 0 <= i < |front| ==> front[i] == items[i];
      if !IsAtEnd(last) && DotSymbol(last) !in xs0 then xs0 + [DotSymbol(last)] else xs0
  }

  /** The items advanceable over `x`, in order. */
  function Select(items: seq<Item>, x: Sym): (sel: seq<Item>)
    ensures forall it :: it in sel <==> it in items && Advanceable(it, x)
    decreases |items|
  {
    if items == [] then []
    else
      var front, last := items[..|items| - 1], items[|items| - 1];
      assert items == front + [last];
      if Advanceable(last, x) then Select(front, x) + [last] else Select(front, x)
  }

  /** Every item with its dot moved one symbol to the right. */
  function Advance(items: seq<Item>): (adv: seq<Item>)
    ensures |adv| == |items|
    ensures forall i :: 0 <= i < |items| ==>
      adv[i].rule == items[i].rule && adv[i].dot == items[i].dot + 1 && adv[i].lookahead == items[i].lookahead
  {
    seq(|items|, i requires 0 <= i < |items| => items[i].(dot := items[i].dot + 1))
  }

  /** The kernel of the successor over `x`. */
  function Kernel(items: seq<Item>, x: Sym): seq<Item> {
    Advance(Select(items, x))
  }

  /** The items of a set built from `kernel`: the kernel, then its closure (createItemSet). */
  function WithClosure(g: seq<Rule>, kernel: seq<Item>): (items: seq<Item>)
    ensures |items| == |kernel| + |GenerateClosures(g, kernel)|
    ensures items[..|kernel|] == kernel
    ensures items[|kernel|..] == GenerateClosures(g, kernel)
  {
    kernel + GenerateClosures(g, kernel)
  }

  /** A set built by createItemSet starts with its kernel; the items after it are fresh
      predictions of grammar rules, none twice; and the set is closed: every rule that one
      of its items predicts is in it as a fresh item. */
  lemma ItemSetIsClosure(g: seq<Rule>, kernel: seq<Item>)
    ensures WithClosure(g, kernel)[..|kernel|] == kernel
    ensures NoDup(WithClosure(g, kernel)[|kernel|..])
    ensures forall x :: x in WithClosure(g, kernel)[|kernel|..] ==> x.dot == 0 && x.lookahead == {} && x.rule in g
    ensures forall x, r :: x in WithClosure(g, kernel) && Predicts(g, x, r) ==> Fresh(r) in WithClosure(g, kernel)
  {
    var items, cl := WithClosure(g, kernel), GenerateClosures(g, kernel);
    ClosureIsClosed(g, kernel);
    forall x, r | x in items && Predicts(g, x, r)
      ensures Fresh(r) in items
    {
      var i :| 0 <= i < |items| && items[i] == x;
      if i < |kernel| {
        assert x in kernel;
      } else {
        assert x == cl[i - |kernel|];
      }
      assert Fresh(r) in cl;
      var m :| 0 <= m < |cl| && cl[m] == Fresh(r);
      assert items[|kernel| + m] == Fresh(r);
    }
  }

  /** The successor of `items` over `x`, before it is compared with the existing sets. */
  function Goto(g: seq<Rule>, items: seq<Item>, x: Sym): seq<Item> {
    WithClosure(g, Kernel(items, x))
  }

  /** The items of state 0. */
  function InitialItems(g: seq<Rule>, start: Sym): seq<Item> {
    WithClosure(g, [StartItem(start)])
  }

  /** The first set whose (rule, dot) sequence is `core`. */
  function FindCore(sets: seq<ItemSet>, core: seq<(Rule, nat)>): (r: Option<nat>)
    ensures r.Some? ==> r.value < |sets| && Core(sets[r.value].items) == core
    ensures r.Some? ==> forall i :: 0 <= i < r.value ==> Core(sets[i].items) != core
    ensures r.None? <==> forall i :: 0 <= i < |sets| ==> Core(sets[i].items) != core
    decreases |sets|
  {
    if sets == [] then None
    else if Core(sets[0].items) == core then Some(0)
    else match FindCore(sets[1..], core)
      case None => None
      case Some(i) => Some(i + 1)
  }

  /** Unions the lookaheads of `b` into the corresponding items of `a`. */
  function MergeLookaheads(a: seq<Item>, b: seq<Item>): (m: seq<Item>)
    requires |a| == |b|
    ensures |m| == |a| && Core(m) == Core(a)
    ensures forall i :: 0 <= i < |a| ==> m[i].lookahead == a[i].lookahead + b[i].lookahead
  {
    seq(|a|, i requires 0 <= i < |a| => a[i].(lookahead := a[i].lookahead + b[i].lookahead))
  }

  // ---------------------------------------------------------------------------------------
  // Facts that depend only on cores

  lemma {:induction false} DotSymbolsOfCore(a: seq<Item>, b: seq<Item>)
    requires Core(a) == Core(b)
    ensures DotSymbols(a) == DotSymbols(b)
    decreases |a|
  {
    if a != [] {
      var fa, fb := a[..|a| - 1], b[..|b| - 1];
      assert Core(fa) == Core(fb) by {
        assert forall i :: 0 <= i < |fa| ==> CoreOf(fa[i]) == Core(a)[i];
      }
      DotSymbolsOfCore(fa, fb);
      assert CoreOf(a[|a| - 1]) == CoreOf(b[|b| - 1]) by {
        assert Core(a)[|a| - 1] == Core(b)[|b| - 1];
      }
    }
  }

  lemma {:induction false} SelectOfCore(a: seq<Item>, b: seq<Item>, x: Sym)
    requires Core(a) == Core(b)
    ensures Core(Select(a, x)) == Core(Select(b, x))
    decreases |a|
  {
    if a != [] {
      var fa, fb := a[..|a| - 1], b[..|b| - 1];
      assert Core(fa) == Core(fb) by {
        assert forall i :: 0 <= i < |fa| ==> CoreOf(fa[i]) == Core(a)[i];
      }
      SelectOfCore(fa, fb, x);
      assert CoreOf(a[|a| - 1]) == CoreOf(b[|b| - 1]) by {
        assert Core(a)[|a| - 1] == Core(b)[|b| - 1];
      }
      var sa, sb := Select(fa, x), Select(fb, x);
      if Advanceable(a[|a| - 1], x) {
        assert Core(sa + [a[|a| - 1]]) == Core(sa) + [CoreOf(a[|a| - 1])];
        assert Core(sb + [b[|b| - 1]]) == Core(sb) + [CoreOf(b[|b| - 1])];
      }
    }
  }

  lemma {:induction false} ExpandOfCore(g: seq<Rule>, a: seq<Item>, b: seq<Item>, k: nat, j: nat, acc: seq<Rule>, had: seq<Rule>)
    requires Core(a) == Core(b)
    requires k <= |a| && j <= |g|
    ensures Expand(g, a, k, j, acc, had) == Expand(g, b, k, j, acc, had)
    decreases |Unvisited(g, had)|, |a| - k, |g| - j
  {
    if k < |a| {
      assert CoreOf(a[k]) == CoreOf(b[k]) by {
        assert Core(a)[k] == Core(b)[k];
      }
      if IsAtEnd(a[k]) || DotSymbol(a[k]).kind != Nonterminal || j == |g| {
        ExpandOfCore(g, a, b, k + 1, 0, acc, had);
      } else if g[j].lhs == DotSymbol(a[k]) && g[j] !in had {
        var r := g[j];
        UnvisitedShrinks(g, had, r, had + [r]);
        var sub := Expand(g, [Fresh(r)], 0, 0, [], had + [r]);
        UnvisitedShrinks(g, had, r, sub.1);
        ExpandOfCore(g, a, b, k, j + 1, sub.0 + acc + [r], sub.1);
      } else {
        ExpandOfCore(g, a, b, k, j + 1, acc, had);
      }
    }
  }

  lemma {:induction false} KernelOfCore(a: seq<Item>, b: seq<Item>, x: Sym)
    requires Core(a) == Core(b)
    ensures Core(Kernel(a, x)) == Core(Kernel(b, x))
  {
    SelectOfCore(a, b, x);
    var sa, sb := Select(a, x), Select(b, x);
    var ka, kb := Kernel(a, x), Kernel(b, x);
    forall i | 0 <= i < |ka|
      ensures CoreOf(ka[i]) == CoreOf(kb[i])
    {
      assert CoreOf(sa[i]) == Core(sa)[i] == Core(sb)[i] == CoreOf(sb[i]);
    }
  }

  lemma {:induction false} CoreAppend(a: seq<Item>, b: seq<Item>)
    ensures Core(a + b) == Core(a) + Core(b)
  {
  }

  /** The core of a successor depends only on the core of its predecessor. */
  lemma {:induction false} GotoOfCore(g: seq<Rule>, a: seq<Item>, b: seq<Item>, x: Sym)
    requires Core(a) == Core(b)
    ensures Core(Goto(g, a, x)) == Core(Goto(g, b, x))
  {
    KernelOfCore(a, b, x);
    var ka, kb := Kernel(a, x), Kernel(b, x);
    ExpandOfCore(g, ka, kb, 0, 0, [], []);
    assert GenerateClosures(g, ka) == GenerateClosures(g, kb);
    CoreAppend(ka, GenerateClosures(g, ka));
    CoreAppend(kb, GenerateClosures(g, kb));
  }

  // ---------------------------------------------------------------------------------------
  // Well-formed item sets: what bounds the number of sets

  /** Every (rule, dot) pair an item of the augmented grammar can have. */
  function CoreUniverse(rules: seq<Rule>): set<(Rule, nat)> {
    set r, d: nat | r in rules && d <= |r.rhs| :: (r, d)
  }

  /** The items of a set have pairwise distinct cores drawn from the augmented grammar. */
  predicate WellCored(rules: seq<Rule>, items: seq<Item>) {
    && NoDup(Core(items))
    && forall i :: 0 <= i < |items| ==> items[i].rule in rules && items[i].dot <= |items[i].rule.rhs|
  }

  lemma {:induction false} SelectKeepsCores(items: seq<Item>, x: Sym)
    requires NoDup(Core(items))
    ensures NoDup(Core(Select(items, x)))
    decreases |items|
  {
    if items != [] {
      var front, last := items[..|items| - 1], items[|items| - 1];
      assert NoDup(Core(front)) by {
        assert forall i :: 0 <= i < |front| ==> Core(front)[i] == Core(items)[i];
      }
      SelectKeepsCores(front, x);
      if Advanceable(last, x) {
        var sf := Select(front, x);
        var sel := sf + [last];
        forall a, b | 0 <= a < b < |sel|
          ensures CoreOf(sel[a]) != CoreOf(sel[b])
        {
          if b == |sf| {
            assert sel[a] in front;
            var i :| 0 <= i < |front| && front[i] == sel[a];
            assert Core(items)[i] != Core(items)[|items| - 1];
          } else {
            assert Core(sf)[a] != Core(sf)[b];
          }
        }
      }
    }
  }

  /** A successor of a well-cored set is well-cored. */
  lemma GotoWellCored(g: seq<Rule>, start: Sym, items: seq<Item>, x: Sym)
    requires WellCored(g + [AugRule(start)], items)
    ensures WellCored(g + [AugRule(start)], Goto(g, items, x))
  {
    var rules := g + [AugRule(start)];
    SelectKeepsCores(items, x);
    var sel := Select(items, x);
    var kernel := Kernel(items, x);
    var cl := GenerateClosures(g, kernel);
    var all := Goto(g, items, x);
    assert all == kernel + cl;
    forall i | 0 <= i < |all|
      ensures all[i].rule in rules && all[i].dot <= |all[i].rule.rhs|
    {
      if i < |kernel| {
        assert sel[i] in items;
        assert !IsAtEnd(sel[i]);
      } else {
        assert all[i] == cl[i - |kernel|] && cl[i - |kernel|] in cl;
      }
    }
    forall a, b | 0 <= a < b < |all|
      ensures Core(all)[a] != Core(all)[b]
    {
      if b < |kernel| {
        assert Core(sel)[a] != Core(sel)[b];
      } else if a < |kernel| {
        assert all[b] in cl;
      } else {
        assert cl[a - |kernel|] != cl[b - |kernel|];
      }
    }
  }

  /** State 0 is well-cored when the grammar does not already contain the augmented rule. */
  lemma {:induction false} InitialWellCored(g: seq<Rule>, start: Sym)
    requires AugRule(start) !in g
    ensures WellCored(g + [AugRule(start)], InitialItems(g, start))
  {
    InitialInGrammar(g, start);
    InitialCoresDistinct(g, start);
  }

  lemma {:induction false} InitialInGrammar(g: seq<Rule>, start: Sym)
    ensures forall i :: 0 <= i < |InitialItems(g, start)| ==>
      InitialItems(g, start)[i].rule in g + [AugRule(start)] &&
      InitialItems(g, start)[i].dot <= |InitialItems(g, start)[i].rule.rhs|
  {
    var kernel := [StartItem(start)];
    var cl := GenerateClosures(g, kernel);
    var all := InitialItems(g, start);
    forall i | 0 <= i < |all|
      ensures all[i].rule in g + [AugRule(start)] && all[i].dot <= |all[i].rule.rhs|
    {
      if i > 0 {
        assert all[i] == cl[i - 1] && cl[i - 1] in cl;
      }
    }
  }

  lemma {:induction false} InitialCoresDistinct(g: seq<Rule>, start: Sym)
    requires AugRule(start) !in g
    ensures NoDup(Core(InitialItems(g, start)))
  {
    HeadAndFreshDistinct(g, StartItem(start), GenerateClosures(g, [StartItem(start)]));
  }

  /** A head item of a rule outside the grammar, followed by distinct fresh predictions of
      grammar rules, has pairwise distinct cores. */
  lemma HeadAndFreshDistinct(g: seq<Rule>, head: Item, cl: seq<Item>)
    requires head.rule !in g && NoDup(cl)
    requires forall x :: x in cl ==> x.dot == 0 && x.lookahead == {} && x.rule in g
    ensures NoDup(Core([head] + cl))
  {
    var all := [head] + cl;
    forall a, b | 0 <= a < b < |all|
      ensures Core(all)[a] != Core(all)[b]
    {
      var y := cl[b - 1];
      assert all[b] == y && y in cl;
      if a > 0 {
        var x := cl[a - 1];
        assert all[a] == x && x in cl && x != y;
      }
    }
  }

  /** A well-cored set has at most as many items as there are cores. */
  lemma WellCoredInWords(rules: seq<Rule>, items: seq<Item>)
    requires WellCored(rules, items)
    ensures Core(items) in Words(CoreUniverse(rules), |CoreUniverse(rules)|)
  {
    var u := CoreUniverse(rules);
    forall c | c in Core(items)
      ensures c in u
    {
      var i :| 0 <= i < |items| && Core(items)[i] == c;
      assert c == (items[i].rule, items[i].dot);
    }
    NoDupLength(Core(items), u);
    WordsContains(u, |u|, Core(items));
  }

  /** The cores of the sets, in order. */
  function Cores(sets: seq<ItemSet>): (cs: seq<seq<(Rule, nat)>>)
    ensures |cs| == |sets|
    ensures forall i :: 0 <= i < |sets| ==> cs[i] == Core(sets[i].items)
  {
    seq(|sets|, i requires 0 <= i < |sets| => Core(sets[i].items))
  }

  /** The largest number of sets the construction can reach. */
  function SetBound(rules: seq<Rule>): nat {
    |Words(CoreUniverse(rules), |CoreUniverse(rules)|)|
  }

  /** Pairwise distinct well-cored sets are no more than `SetBound` many. */
  lemma SetCountBounded(rules: seq<Rule>, sets: seq<ItemSet>)
    requires NoDup(Cores(sets))
    requires forall i :: 0 <= i < |sets| ==> WellCored(rules, sets[i].items)
    ensures |sets| <= SetBound(rules)
  {
    var w := Words(CoreUniverse(rules), |CoreUniverse(rules)|);
    forall c | c in Cores(sets)
      ensures c in w
    {
      var i :| 0 <= i < |sets| && Cores(sets)[i] == c;
      WellCoredInWords(rules, sets[i].items);
    }
    NoDupLength(Cores(sets), w);
  }

  // ---------------------------------------------------------------------------------------
  // The construction

  /** Set `i`'s transitions are exactly its groups, in order, and each leads to the set
      whose core is the successor's core. */
  ghost predicate EdgesOk(g: seq<Rule>, sets: seq<ItemSet>, i: nat)
    requires i < |sets|
  {
    var xs := DotSymbols(sets[i].items);
    && |sets[i].next| == |xs|
    && forall m :: 0 <= m < |xs| ==>
      && sets[i].next[m].0 == xs[m]
      && sets[i].next[m].1 < |sets|
      && Core(sets[sets[i].next[m].1].items) == Core(Goto(g, sets[i].items, xs[m]))
  }

  /** Table entries written for set `i`'s transitions. */
  ghost predicate TablesOk(sets: seq<ItemSet>, i: nat, t: Tables)
    requires i < |sets|
  {
    forall e :: e in sets[i].next ==>
      if e.0.kind == Nonterminal then (i, e.0.name) in t.goto && t.goto[(i, e.0.name)] == e.1
      else (i, e.0.name) in t.action && t.action[(i, e.0.name)] == Shift(e.1)
  }

  /** Every table key belongs to a transition of a processed set. */
  ghost predicate TableKeysOk(sets: seq<ItemSet>, p: nat, t: Tables)
    requires p <= |sets|
  {
    && (forall key :: key in t.goto ==>
          key.0 < p && exists e :: e in sets[key.0].next && e.0 == Sym(key.1, Nonterminal))
    && (forall key :: key in t.action ==>
          key.0 < p && exists e :: e in sets[key.0].next && e.0 == Sym(key.1, Terminal))
  }

  /** Lookaheads that createSets can see: only the end marker. */
  predicate EndOnly(sets: seq<ItemSet>) {
    forall i, j :: 0 <= i < |sets| && 0 <= j < |sets[i].items| ==>
      sets[i].items[j].lookahead <= {EndMarker}
  }

  /** The invariant of the construction. */
  ghost predicate Built(g: seq<Rule>, start: Sym, sets: seq<ItemSet>, p: nat, t: Tables) {
    && p <= |sets|
    && |sets| > 0
    && sets[0].items == InitialItems(g, start)
    && NoDup(Cores(sets))
    && EndOnly(sets)
    && (forall i :: 0 <= i < |sets| ==> sets[i].number == i)
    && (forall i :: 0 <= i < |sets| ==> WellCored(g + [AugRule(start)], sets[i].items))
    && (forall i :: p <= i < |sets| ==> sets[i].next == [])
    && (forall i :: 0 <= i < p ==> EdgesOk(g, sets, i) && TablesOk(sets, i, t))
    && TableKeysOk(sets, p, t)
  }

  /** What adding one successor produces. */
  datatype Step = Step(sets: seq<ItemSet>, target: nat, tables: Tables)

  /** The set a candidate goes to: the first set with its core, which absorbs the
      candidate's lookaheads, or else a new set appended with the next number. */
  function Place(sets: seq<ItemSet>, cand: seq<Item>): (r: (seq<ItemSet>, nat))
    ensures |sets| <= |r.0| <= |sets| + 1 && r.1 < |r.0|
    ensures Core(r.0[r.1].items) == Core(cand)
    ensures forall i :: 0 <= i < |sets| ==> Core(r.0[i].items) == Core(sets[i].items)
    ensures |r.0| == |sets| + 1 <==> FindCore(sets, Core(cand)).None?
    ensures |r.0| == |sets| + 1 ==> r.0[|sets|] == ItemSet(|sets|, cand, []) && r.1 == |sets|
    ensures |r.0| == |sets| ==> r.1 == FindCore(sets, Core(cand)).value
    ensures |r.0| == |sets| ==> forall j :: 0 <= j < |sets[r.1].items| ==>
      r.0[r.1].items[j].lookahead == sets[r.1].items[j].lookahead + cand[j].lookahead
    ensures forall i :: 0 <= i < |sets| && i != r.1 ==> r.0[i].items == sets[i].items
    ensures forall i :: 0 <= i < |sets| ==> r.0[i].number == sets[i].number && r.0[i].next == sets[i].next
  {
    match FindCore(sets, Core(cand))
    case Some(d) =>
      (sets[d := sets[d].(items := MergeLookaheads(sets[d].items, cand))], d)
    case None => (sets + [ItemSet(|sets|, cand, [])], |sets|)
  }

  /**
   * Adds the successor of set `s` over `x` (one iteration of createSets' second loop):
   * builds kernel and closure from `src`, the items of set `s` when createSets began; if
   * an existing set has the same core, unions the new lookaheads into it and targets it,
   * otherwise appends the new set with the next number; then records the transition and
   * writes the goto entry (nonterminal `x`) or the shift action (terminal `x`).
   */
  function AddSuccessor(g: seq<Rule>, sets: seq<ItemSet>, s: nat, src: seq<Item>, x: Sym, t: Tables): (r: Step)
    requires s < |sets|
    ensures |sets| <= |r.sets| <= |sets| + 1 && r.target < |r.sets|
    ensures Core(r.sets[r.target].items) == Core(Goto(g, src, x))
    ensures forall i :: 0 <= i < |sets| ==> Core(r.sets[i].items) == Core(sets[i].items)
    ensures |r.sets| == |sets| + 1 <==> FindCore(sets, Core(Goto(g, src, x))).None?
    ensures |r.sets| == |sets| + 1 ==> r.sets[|sets|] == ItemSet(|sets|, Goto(g, src, x), []) && r.target == |sets|
    ensures |r.sets| == |sets| ==> r.target == FindCore(sets, Core(Goto(g, src, x))).value
    ensures |r.sets| == |sets| ==> forall j :: 0 <= j < |sets[r.target].items| ==>
      r.sets[r.target].items[j].lookahead == sets[r.target].items[j].lookahead + Goto(g, src, x)[j].lookahead
    ensures forall i :: 0 <= i < |sets| && i != r.target ==> r.sets[i].items == sets[i].items
    ensures forall i :: 0 <= i < |sets| && i != s ==> r.sets[i].number == sets[i].number && r.sets[i].next == sets[i].next
    ensures r.sets[s].number == sets[s].number && r.sets[s].next == sets[s].next + [(x, r.target)]
    ensures x.kind == Nonterminal ==> r.tables == t.(goto := t.goto[(s, x.name) := r.target])
    ensures x.kind != Nonterminal ==> r.tables == t.(action := t.action[(s, x.name) := Shift(r.target)])
  {
    var (sets', target) := Place(sets, Goto(g, src, x));
    var sets'' := sets'[s := sets'[s].(next := sets'[s].next + [(x, target)])];
    if x.kind == Nonterminal then Step(sets'', target, t.(goto := t.goto[(s, x.name) := target]))
    else Step(sets'', target, t.(action := t.action[(s, x.name) := Shift(target)]))
  }

  /** Every set except state 0 is the target of a transition of an earlier processed set. */
  ghost predicate Reached(sets: seq<ItemSet>, p: nat) {
    forall i :: 0 < i < |sets| ==> ReachedFrom(sets, p, i)
  }

  /** Some transition of a set before both `p` and `i` leads to `i`. */
  ghost predicate ReachedFrom(sets: seq<ItemSet>, p: nat, i: nat) {
    exists j :: 0 <= j < p && j < i && j < |sets| && IsTarget(sets[j].next, i)
  }

  /** Some transition in `edges` leads to `i`. */
  predicate IsTarget(edges: seq<(Sym, nat)>, i: nat) {
    exists m :: 0 <= m < |edges| && edges[m].1 == i
  }

  lemma WellCoredOfCore(rules: seq<Rule>, a: seq<Item>, b: seq<Item>)
    requires Core(a) == Core(b)
    requires WellCored(rules, a)
    ensures WellCored(rules, b)
  {
    forall i | 0 <= i < |b|
      ensures b[i].rule in rules && b[i].dot <= |b[i].rule.rhs|
    {
      assert Core(a)[i] == Core(b)[i];
    }
  }

  lemma EdgesStable(g: seq<Rule>, a: seq<ItemSet>, b: seq<ItemSet>, i: nat)
    requires i < |a| <= |b|
    requires forall j :: 0 <= j < |a| ==> Core(b[j].items) == Core(a[j].items)
    requires b[i].next == a[i].next
    requires EdgesOk(g, a, i)
    ensures EdgesOk(g, b, i)
  {
    DotSymbolsOfCore(a[i].items, b[i].items);
    var xs := DotSymbols(a[i].items);
    forall m | 0 <= m < |xs|
      ensures Core(b[b[i].next[m].1].items) == Core(Goto(g, b[i].items, xs[m]))
    {
      GotoOfCore(g, a[i].items, b[i].items, xs[m]);
    }
  }

  lemma GotoEndOnly(g: seq<Rule>, src: seq<Item>, x: Sym)
    requires forall j :: 0 <= j < |src| ==> src[j].lookahead <= {EndMarker}
    ensures forall j :: 0 <= j < |Goto(g, src, x)| ==> Goto(g, src, x)[j].lookahead <= {EndMarker}
  {
    var sel := Select(src, x);
    var kernel := Kernel(src, x);
    var cl := GenerateClosures(g, kernel);
    var all := Goto(g, src, x);
    forall j | 0 <= j < |all|
      ensures all[j].lookahead <= {EndMarker}
    {
      if j < |kernel| {
        assert sel[j] in src;
      } else {
        assert all[j] == cl[j - |kernel|] && cl[j - |kernel|] in cl;
      }
    }
  }

  /** The sets part of the createSets loop invariant. */
  ghost predicate SetsInv(rules: seq<Rule>, sets0: seq<ItemSet>, sets: seq<ItemSet>) {
    && 0 < |sets0| <= |sets|
    && sets[0].items == sets0[0].items
    && (forall i :: 0 <= i < |sets0| ==> Core(sets[i].items) == Core(sets0[i].items))
    && (forall i :: 0 <= i < |sets| ==> sets[i].number == i)
    && NoDup(Cores(sets))
    && EndOnly(sets)
    && (forall i :: 0 <= i < |sets| ==> WellCored(rules, sets[i].items))
  }

  /** The transitions part of the createSets loop invariant: set `s` has the transitions of
      the first `k` groups, no other set gained any, and every new set is a target. */
  ghost predicate NextInv(g: seq<Rule>, sets0: seq<ItemSet>, s: nat, src: seq<Item>, xs: seq<Sym>, k: nat, sets: seq<ItemSet>)
  {
    && s < |sets0| <= |sets| && k <= |xs|
    && (forall i :: 0 <= i < |sets| && i != s ==> sets[i].next == (if i < |sets0| then sets0[i].next else []))
    && |sets[s].next| == k
    && (forall m :: 0 <= m < k ==>
         && sets[s].next[m].0 == xs[m]
         && sets[s].next[m].1 < |sets|
         && Core(sets[sets[s].next[m].1].items) == Core(Goto(g, src, xs[m])))
    && (forall i :: |sets0| <= i < |sets| ==> IsTarget(sets[s].next, i))
  }

  /** The entry a transition of set `s` over `x` to `target` writes. */
  function Record(t: Tables, s: nat, x: Sym, target: nat): Tables {
    if x.kind == Nonterminal then t.(goto := t.goto[(s, x.name) := target])
    else t.(action := t.action[(s, x.name) := Shift(target)])
  }

  /** The first `k` transitions of set `s` have their entries. */
  ghost predicate TabWritten(s: nat, xs: seq<Sym>, k: nat, next: seq<(Sym, nat)>, t: Tables)
    requires k <= |xs| && |next| == k
  {
    forall m :: 0 <= m < k ==>
      if xs[m].kind == Nonterminal then (s, xs[m].name) in t.goto && t.goto[(s, xs[m].name)] == next[m].1
      else (s, xs[m].name) in t.action && t.action[(s, xs[m].name)] == Shift(next[m].1)
  }

  /** The rows of the other sets are as they were. */
  ghost predicate TabElsewhere(t0: Tables, s: nat, t: Tables) {
    && (forall key: (nat, string) :: key.0 != s ==> (key in t.goto <==> key in t0.goto))
    && (forall key: (nat, string) :: key.0 != s && key in t0.goto ==> t.goto[key] == t0.goto[key])
    && (forall key: (nat, string) :: key.0 != s ==> (key in t.action <==> key in t0.action))
    && (forall key: (nat, string) :: key.0 != s && key in t0.action ==> t.action[key] == t0.action[key])
  }

  /** Every entry of set `s` belongs to one of its first `k` transitions. */
  ghost predicate TabKeys(s: nat, xs: seq<Sym>, k: nat, t: Tables)
    requires k <= |xs|
  {
    && (forall key: (nat, string) :: key in t.goto && key.0 == s ==> exists m :: 0 <= m < k && xs[m] == Sym(key.1, Nonterminal))
    && (forall key: (nat, string) :: key in t.action && key.0 == s ==> exists m :: 0 <= m < k && xs[m] == Sym(key.1, Terminal))
  }

  /** The tables part of the createSets loop invariant. */
  ghost predicate TabInv(t0: Tables, s: nat, xs: seq<Sym>, k: nat, sets: seq<ItemSet>, t: Tables)
    requires s < |sets| && k <= |xs| && |sets[s].next| == k
  {
    && TabWritten(s, xs, k, sets[s].next, t)
    && TabElsewhere(t0, s, t)
    && TabKeys(s, xs, k, t)
  }

  lemma TabWrittenStep(s: nat, xs: seq<Sym>, k: nat, next: seq<(Sym, nat)>, t: Tables, target: nat)
    requires k < |xs| && |next| == k && NoDup(xs)
    requires TabWritten(s, xs, k, next, t)
    ensures TabWritten(s, xs, k + 1, next + [(xs[k], target)], Record(t, s, xs[k], target))
  {
    var next1, t1 := next + [(xs[k], target)], Record(t, s, xs[k], target);
    forall m | 0 <= m < k + 1
      ensures if xs[m].kind == Nonterminal then (s, xs[m].name) in t1.goto && t1.goto[(s, xs[m].name)] == next1[m].1
              else (s, xs[m].name) in t1.action && t1.action[(s, xs[m].name)] == Shift(next1[m].1)
    {
      if m < k {
        assert next1[m] == next[m];
        assert xs[m] != xs[k];
      }
    }
  }

  lemma TabElsewhereStep(t0: Tables, s: nat, t: Tables, x: Sym, target: nat)
    requires TabElsewhere(t0, s, t)
    ensures TabElsewhere(t0, s, Record(t, s, x, target))
  {
  }

  lemma TabKeysStep(s: nat, xs: seq<Sym>, k: nat, t: Tables, target: nat)
    requires k < |xs| && TabKeys(s, xs, k, t)
    ensures TabKeys(s, xs, k + 1, Record(t, s, xs[k], target))
  {
    var t1 := Record(t, s, xs[k], target);
    forall key: (nat, string) | key in t1.goto && key.0 == s
      ensures exists m :: 0 <= m < k + 1 && xs[m] == Sym(key.1, Nonterminal)
    {
      if key !in t.goto {
        assert xs[k] == Sym(key.1, Nonterminal);
      }
    }
    forall key: (nat, string) | key in t1.action && key.0 == s
      ensures exists m :: 0 <= m < k + 1 && xs[m] == Sym(key.1, Terminal)
    {
      if key !in t.action {
        assert xs[k] == Sym(key.1, Terminal);
      }
    }
  }

  lemma StepWellCored(g: seq<Rule>, start: Sym, sets0: seq<ItemSet>, sets: seq<ItemSet>, s: nat, x: Sym, t: Tables)
    requires s < |sets0|
    requires SetsInv(g + [AugRule(start)], sets0, sets)
    ensures var sets1 := AddSuccessor(g, sets, s, sets0[s].items, x, t).sets;
      forall i :: 0 <= i < |sets1| ==> WellCored(g + [AugRule(start)], sets1[i].items)
  {
    var rules := g + [AugRule(start)];
    var src := sets0[s].items;
    var sets1 := AddSuccessor(g, sets, s, src, x, t).sets;
    WellCoredOfCore(rules, sets[s].items, src);
    GotoWellCored(g, start, src, x);
    forall i | 0 <= i < |sets|
      ensures WellCored(rules, sets1[i].items)
    {
      WellCoredOfCore(rules, sets[i].items, sets1[i].items);
    }
  }

  lemma StepNoDup(g: seq<Rule>, sets: seq<ItemSet>, s: nat, src: seq<Item>, x: Sym, t: Tables)
    requires s < |sets| && NoDup(Cores(sets))
    ensures NoDup(Cores(AddSuccessor(g, sets, s, src, x, t).sets))
  {
    var sets1 := AddSuccessor(g, sets, s, src, x, t).sets;
    forall a, b | 0 <= a < b < |sets1|
      ensures Cores(sets1)[a] != Cores(sets1)[b]
    {
      assert Cores(sets1)[a] == Cores(sets)[a];
      if b < |sets| {
        assert Cores(sets1)[b] == Cores(sets)[b];
      }
    }
  }

  lemma StepEndOnly(g: seq<Rule>, sets0: seq<ItemSet>, sets: seq<ItemSet>, s: nat, x: Sym, t: Tables)
    requires s < |sets0| <= |sets| && EndOnly(sets0) && EndOnly(sets)
    ensures EndOnly(AddSuccessor(g, sets, s, sets0[s].items, x, t).sets)
  {
    var src := sets0[s].items;
    var st := AddSuccessor(g, sets, s, src, x, t);
    var sets1 := st.sets;
    assert forall j :: 0 <= j < |src| ==> src[j].lookahead <= {EndMarker} by {
      assert forall j :: 0 <= j < |src| ==> sets0[s].items[j].lookahead <= {EndMarker};
    }
    GotoEndOnly(g, src, x);
    forall i, j | 0 <= i < |sets1| && 0 <= j < |sets1[i].items|
      ensures sets1[i].items[j].lookahead <= {EndMarker}
    {
      if i < |sets| && i != st.target {
        assert sets1[i].items == sets[i].items;
      }
    }
  }

  lemma StepSets(g: seq<Rule>, start: Sym, sets0: seq<ItemSet>, sets: seq<ItemSet>, s: nat, x: Sym, t: Tables)
    requires s < |sets0| && sets0[0].items == InitialItems(g, start)
    requires SetsInv(g + [AugRule(start)], sets0, sets) && EndOnly(sets0)
    ensures SetsInv(g + [AugRule(start)], sets0, AddSuccessor(g, sets, s, sets0[s].items, x, t).sets)
  {
    StepKeepsInitial(g, start, sets, s, sets0[s].items, x, t);
    StepWellCored(g, start, sets0, sets, s, x, t);
    StepNoDup(g, sets, s, sets0[s].items, x, t);
    StepEndOnly(g, sets0, sets, s, x, t);
  }

  /** No successor has the core of state 0: a successor's kernel items have their dot past
      the start, and an empty kernel has an empty closure. */
  lemma SuccessorNotInitial(g: seq<Rule>, start: Sym, src: seq<Item>, x: Sym)
    ensures Core(Goto(g, src, x)) != Core(InitialItems(g, start))
  {
    var kernel, init := Kernel(src, x), InitialItems(g, start);
    assert Core(init)[0] == (AugRule(start), 0);
    if kernel == [] {
      assert ClosureRules(g, kernel) == [];
      assert |Core(Goto(g, src, x))| == 0;
    } else {
      assert Core(Goto(g, src, x))[0].1 == kernel[0].dot >= 1;
    }
  }

  /** Adding a successor never merges into state 0, so its items stay as they are. */
  lemma StepKeepsInitial(g: seq<Rule>, start: Sym, sets: seq<ItemSet>, s: nat, src: seq<Item>, x: Sym, t: Tables)
    requires s < |sets| && sets[0].items == InitialItems(g, start)
    ensures AddSuccessor(g, sets, s, src, x, t).target != 0
    ensures AddSuccessor(g, sets, s, src, x, t).sets[0].items == sets[0].items
  {
    SuccessorNotInitial(g, start, src, x);
  }

  lemma StepNext(g: seq<Rule>, sets0: seq<ItemSet>, s: nat, xs: seq<Sym>, k: nat, sets: seq<ItemSet>, t: Tables)
    requires s < |sets0| && k < |xs|
    requires NextInv(g, sets0, s, sets0[s].items, xs, k, sets)
    ensures NextInv(g, sets0, s, sets0[s].items, xs, k + 1, AddSuccessor(g, sets, s, sets0[s].items, xs[k], t).sets)
  {
    var src := sets0[s].items;
    var st := AddSuccessor(g, sets, s, src, xs[k], t);
    var sets1 := st.sets;
    forall m | 0 <= m < k + 1
      ensures Core(sets1[sets1[s].next[m].1].items) == Core(Goto(g, src, xs[m]))
    {
      if m < k {
        assert sets1[s].next[m] == sets[s].next[m];
      }
    }
    forall i | |sets0| <= i < |sets1|
      ensures IsTarget(sets1[s].next, i)
    {
      if i < |sets| {
        assert IsTarget(sets[s].next, i);
        var m :| 0 <= m < |sets[s].next| && sets[s].next[m].1 == i;
        assert sets1[s].next[m] == sets[s].next[m];
      } else {
        assert sets1[s].next[k].1 == i;
      }
    }
  }

  lemma StepTab(g: seq<Rule>, t0: Tables, s: nat, src: seq<Item>, xs: seq<Sym>, k: nat, sets: seq<ItemSet>, t: Tables)
    requires s < |sets| && k < |xs| && |sets[s].next| == k && NoDup(xs)
    requires TabInv(t0, s, xs, k, sets, t)
    ensures TabInv(t0, s, xs, k + 1, AddSuccessor(g, sets, s, src, xs[k], t).sets, AddSuccessor(g, sets, s, src, xs[k], t).tables)
  {
    var st := AddSuccessor(g, sets, s, src, xs[k], t);
    assert st.tables == Record(t, s, xs[k], st.target);
    TabWrittenStep(s, xs, k, sets[s].next, t, st.target);
    TabElsewhereStep(t0, s, t, xs[k], st.target);
    TabKeysStep(s, xs, k, t, st.target);
  }

  lemma FinishEdges(g: seq<Rule>, start: Sym, sets0: seq<ItemSet>, s: nat, t0: Tables, sets: seq<ItemSet>)
    requires s < |sets0|
    requires Built(g, start, sets0, s, t0)
    requires SetsInv(g + [AugRule(start)], sets0, sets)
    requires NextInv(g, sets0, s, sets0[s].items, DotSymbols(sets0[s].items), |DotSymbols(sets0[s].items)|, sets)
    ensures forall i :: s < i < |sets| ==> sets[i].next == []
    ensures forall i :: 0 <= i <= s ==> EdgesOk(g, sets, i)
  {
    var src := sets0[s].items;
    forall i | 0 <= i <= s
      ensures EdgesOk(g, sets, i)
    {
      if i < s {
        EdgesStable(g, sets0, sets, i);
      } else {
        DotSymbolsOfCore(src, sets[s].items);
        var xs := DotSymbols(src);
        forall m | 0 <= m < |xs|
          ensures Core(sets[sets[s].next[m].1].items) == Core(Goto(g, sets[s].items, xs[m]))
        {
          GotoOfCore(g, src, sets[s].items, xs[m]);
        }
      }
    }
  }

  /** The row of set `s` holds the entries of its transitions. */
  lemma OwnRowOk(sets: seq<ItemSet>, s: nat, xs: seq<Sym>, t: Tables)
    requires s < |sets| && |sets[s].next| == |xs|
    requires forall m :: 0 <= m < |xs| ==> sets[s].next[m].0 == xs[m]
    requires TabWritten(s, xs, |xs|, sets[s].next, t)
    ensures TablesOk(sets, s, t)
  {
    forall e | e in sets[s].next
      ensures if e.0.kind == Nonterminal then (s, e.0.name) in t.goto && t.goto[(s, e.0.name)] == e.1
              else (s, e.0.name) in t.action && t.action[(s, e.0.name)] == Shift(e.1)
    {
      var m :| 0 <= m < |sets[s].next| && sets[s].next[m] == e;
      assert e.0 == xs[m];
    }
  }

  /** The rows of the earlier sets are untouched. */
  lemma OtherRowsOk(sets0: seq<ItemSet>, sets: seq<ItemSet>, s: nat, t0: Tables, t: Tables)
    requires s < |sets0| <= |sets|
    requires forall i :: 0 <= i < s ==> sets[i].next == sets0[i].next && TablesOk(sets0, i, t0)
    requires TabElsewhere(t0, s, t)
    ensures forall i :: 0 <= i < s ==> TablesOk(sets, i, t)
  {
  }

  /** Every key of the first `s + 1` rows belongs to a transition of its set. */
  lemma KeysOk(sets0: seq<ItemSet>, sets: seq<ItemSet>, s: nat, xs: seq<Sym>, t0: Tables, t: Tables)
    requires s < |sets0| <= |sets| && |sets[s].next| == |xs|
    requires forall m :: 0 <= m < |xs| ==> sets[s].next[m].0 == xs[m]
    requires forall i :: 0 <= i < s ==> sets[i].next == sets0[i].next
    requires TableKeysOk(sets0, s, t0) && TabElsewhere(t0, s, t) && TabKeys(s, xs, |xs|, t)
    ensures TableKeysOk(sets, s + 1, t)
  {
    forall key | key in t.goto
      ensures key.0 < s + 1 && exists e :: e in sets[key.0].next && e.0 == Sym(key.1, Nonterminal)
    {
      if key.0 == s {
        var m :| 0 <= m < |xs| && xs[m] == Sym(key.1, Nonterminal);
        assert sets[s].next[m] in sets[s].next;
      } else {
        assert key in t0.goto;
      }
    }
    forall key | key in t.action
      ensures key.0 < s + 1 && exists e :: e in sets[key.0].next && e.0 == Sym(key.1, Terminal)
    {
      if key.0 == s {
        var m :| 0 <= m < |xs| && xs[m] == Sym(key.1, Terminal);
        assert sets[s].next[m] in sets[s].next;
      } else {
        assert key in t0.action;
      }
    }
  }

  lemma FinishTables(g: seq<Rule>, start: Sym, sets0: seq<ItemSet>, s: nat, t0: Tables, sets: seq<ItemSet>, t: Tables)
    requires s < |sets0|
    requires Built(g, start, sets0, s, t0)
    requires NextInv(g, sets0, s, sets0[s].items, DotSymbols(sets0[s].items), |DotSymbols(sets0[s].items)|, sets)
    requires TabInv(t0, s, DotSymbols(sets0[s].items), |DotSymbols(sets0[s].items)|, sets, t)
    ensures forall i :: 0 <= i <= s ==> TablesOk(sets, i, t)
    ensures TableKeysOk(sets, s + 1, t)
  {
    var xs := DotSymbols(sets0[s].items);
    assert forall i :: 0 <= i < s ==> sets[i].next == sets0[i].next;
    OwnRowOk(sets, s, xs, t);
    OtherRowsOk(sets0, sets, s, t0, t);
    KeysOk(sets0, sets, s, xs, t0, t);
  }

  lemma FinishReached(g: seq<Rule>, start: Sym, sets0: seq<ItemSet>, s: nat, t0: Tables, sets: seq<ItemSet>)
    requires s < |sets0|
    requires Built(g, start, sets0, s, t0) && Reached(sets0, s)
    requires NextInv(g, sets0, s, sets0[s].items, DotSymbols(sets0[s].items), |DotSymbols(sets0[s].items)|, sets)
    ensures Reached(sets, s + 1)
  {
    var p := s + 1;
    forall i | 0 < i < |sets|
      ensures ReachedFrom(sets, p, i)
    {
      if i < |sets0| {
        assert ReachedFrom(sets0, s, i);
        var j :| 0 <= j < s && j < i && j < |sets0| && IsTarget(sets0[j].next, i);
        assert sets[j].next == sets0[j].next;
      } else {
        assert IsTarget(sets[s].next, i);
      }
    }
  }

  /**
   * createSets for set `s`: adds the successor over each group in turn.  The groups are
   * taken from the items as they were when the call began, so a lookahead merged into
   * set `s` itself by an earlier group does not reach a later group's kernel.
   */
  method CreateSets(g: seq<Rule>, start: Sym, sets0: seq<ItemSet>, s: nat, t0: Tables)
    returns (sets: seq<ItemSet>, t: Tables)
    requires s < |sets0|
    requires Built(g, start, sets0, s, t0) && Reached(sets0, s)
    ensures |sets0| <= |sets|
    ensures forall i :: 0 <= i < |sets0| ==> Core(sets[i].items) == Core(sets0[i].items)
    ensures Built(g, start, sets, s + 1, t) && Reached(sets, s + 1)
  {
    var src := sets0[s].items;
    var xs := DotSymbols(src);
    sets, t := sets0, t0;
    CreateStart(g, start, sets0, s, t0);
    for k := 0 to |xs|
      invariant CreateInv(g, start, sets0, s, t0, k, sets, t)
    {
      CreateStep(g, start, sets0, s, t0, k, sets, t);
      var st := AddSuccessor(g, sets, s, src, xs[k], t);
      sets, t := st.sets, st.tables;
    }
    CreateFinish(g, start, sets0, s, t0, sets, t);
  }

  /** The createSets loop invariant after the groups of the first `k` dot symbols of set
      `s`. */
  ghost predicate CreateInv(g: seq<Rule>, start: Sym, sets0: seq<ItemSet>, s: nat, t0: Tables, k: nat,
                            sets: seq<ItemSet>, t: Tables)
    requires s < |sets0|
  {
    var xs := DotSymbols(sets0[s].items);
    && k <= |xs|
    && SetsInv(g + [AugRule(start)], sets0, sets)
    && NextInv(g, sets0, s, sets0[s].items, xs, k, sets)
    && s < |sets| && |sets[s].next| == k
    && TabInv(t0, s, xs, k, sets, t)
  }

  lemma CreateStart(g: seq<Rule>, start: Sym, sets0: seq<ItemSet>, s: nat, t0: Tables)
    requires s < |sets0| && Built(g, start, sets0, s, t0)
    ensures CreateInv(g, start, sets0, s, t0, 0, sets0, t0)
  {
  }

  lemma CreateStep(g: seq<Rule>, start: Sym, sets0: seq<ItemSet>, s: nat, t0: Tables, k: nat,
                   sets: seq<ItemSet>, t: Tables)
    requires s < |sets0| && Built(g, start, sets0, s, t0)
    requires CreateInv(g, start, sets0, s, t0, k, sets, t) && k < |DotSymbols(sets0[s].items)|
    ensures var xs := DotSymbols(sets0[s].items);
      var st := AddSuccessor(g, sets, s, sets0[s].items, xs[k], t);
      CreateInv(g, start, sets0, s, t0, k + 1, st.sets, st.tables)
  {
    var xs := DotSymbols(sets0[s].items);
    StepSets(g, start, sets0, sets, s, xs[k], t);
    StepNext(g, sets0, s, xs, k, sets, t);
    StepTab(g, t0, s, sets0[s].items, xs, k, sets, t);
  }

  lemma CreateFinish(g: seq<Rule>, start: Sym, sets0: seq<ItemSet>, s: nat, t0: Tables, sets: seq<ItemSet>, t: Tables)
    requires s < |sets0|
    requires Built(g, start, sets0, s, t0) && Reached(sets0, s)
    requires CreateInv(g, start, sets0, s, t0, |DotSymbols(sets0[s].items)|, sets, t)
    ensures |sets0| <= |sets|
    ensures forall i :: 0 <= i < |sets0| ==> Core(sets[i].items) == Core(sets0[i].items)
    ensures Built(g, start, sets, s + 1, t) && Reached(sets, s + 1)
  {
    FinishEdges(g, start, sets0, s, t0, sets);
    FinishTables(g, start, sets0, s, t0, sets, t);
    FinishReached(g, start, sets0, s, t0, sets);
  }

  lemma InitialEndOnly(g: seq<Rule>, start: Sym)
    ensures EndOnly([ItemSet(0, InitialItems(g, start), [])])
  {
    var kernel := [StartItem(start)];
    var cl := GenerateClosures(g, kernel);
    var all := InitialItems(g, start);
    forall j | 0 < j < |all|
      ensures all[j].lookahead == {}
    {
      assert all[j] == cl[j - 1] && cl[j - 1] in cl;
    }
  }

  /**
   * The first worklist of generateTables: state 0 is the augmented start item with its
   * closure; each set is processed in turn (createSets) until no unprocessed set remains.
   * On return every set's transitions are exactly its groups, each transition leads to the
   * set with the successor's core, the cores are pairwise distinct, every set but state 0
   * is the target of an earlier set, and the tables hold exactly the transitions' entries.
   */
  method BuildSets(g: seq<Rule>, start: Sym) returns (sets: seq<ItemSet>, t: Tables)
    requires AugRule(start) !in g
    ensures Built(g, start, sets, |sets|, t) && Reached(sets, |sets|)
  {
    var rules := g + [AugRule(start)];
    sets := [ItemSet(0, InitialItems(g, start), [])];
    t := Tables(map[], map[]);
    InitialWellCored(g, start);
    InitialEndOnly(g, start);
    var p := 0;
    while p < |sets|
      invariant Built(g, start, sets, p, t) && Reached(sets, p)
      decreases SetBound(rules) - |sets|, |sets| - p
    {
      SetCountBounded(rules, sets);
      var sets', t' := CreateSets(g, start, sets, p, t);
      SetCountBounded(rules, sets');
      sets, t, p := sets', t', p + 1;
    }
  }
}
