/**
 * Lookahead propagation of the table generator (Peg/src/peg.cpp, generateLookAheads and the
 * second worklist of generateTables).
 *
 * Each worklist entry names a set and the items whose lookaheads changed.  Inside the set,
 * lookaheads flow from an item to the items whose lhs is the symbol after its dot, driven
 * by a stack of symbols; then each transition copies the lookaheads of an item to its
 * advanced copy in the target set, unless the (source, target) pair is linked, i.e. was
 * already copied and the source has not gained anything since.  The links map of the
 * source (set number to set of set numbers) is modelled as a set of pairs.
 *
 * Lookaheads only grow and never leave the finite universe of grammar symbols plus "$";
 * the number of symbols still missing from all lookaheads, then the number of unlinked
 * pairs, then the worklist length decrease, so the worklist drains.
 */
module Lookaheads {
  import opened Wrappers
  import opened Grammar
  import opened Collections
  import opened ItemSets

  /** Every symbol a lookahead can hold. */
  function Universe(rules: seq<Rule>): (u: set<Sym>)
    ensures EndMarker in u
    ensures forall r, x :: r in rules && x in r.rhs ==> x in u
  {
    {EndMarker} + SymbolsOf(rules)
  }

  /** The items use rules of `rules` and lookaheads within its universe. */
  predicate ItemsOk(rules: seq<Rule>, items: seq<Item>) {
    forall j :: 0 <= j < |items| ==> items[j].rule in rules && items[j].lookahead <= Universe(rules)
  }

  predicate SetsOk(rules: seq<Rule>, sets: seq<ItemSet>) {
    forall i :: 0 <= i < |sets| ==> ItemsOk(rules, sets[i].items)
  }

  /** `b` is `a` with possibly larger lookaheads. */
  predicate Grows(a: seq<Item>, b: seq<Item>) {
    && |a| == |b|
    && Core(a) == Core(b)
    && forall j :: 0 <= j < |a| ==> a[j].lookahead <= b[j].lookahead
  }

  /** `b` is `a` with possibly larger lookaheads: same numbers, items' cores and transitions. */
  predicate SetsGrow(a: seq<ItemSet>, b: seq<ItemSet>) {
    && |a| == |b|
    && forall i :: 0 <= i < |a| ==>
      a[i].number == b[i].number && a[i].next == b[i].next && Grows(a[i].items, b[i].items)
  }

  // ---------------------------------------------------------------------------------------
  // The termination measure

  /** How many symbols of `u` the lookaheads of `items` still miss, summed over the items. */
  function MissingOf(u: set<Sym>, items: seq<Item>): nat
    decreases |items|
  {
    if items == [] then 0 else |u - items[0].lookahead| + MissingOf(u, items[1..])
  }

  function Missing(u: set<Sym>, sets: seq<ItemSet>): nat
    decreases |sets|
  {
    if sets == [] then 0 else MissingOf(u, sets[0].items) + Missing(u, sets[1..])
  }

  lemma {:induction false} MissingOfUpdate(u: set<Sym>, items: seq<Item>, j: nat, it: Item)
    requires j < |items|
    ensures MissingOf(u, items[j := it]) + |u - items[j].lookahead| == MissingOf(u, items) + |u - it.lookahead|
    decreases |items|
  {
    if j > 0 {
      assert items[j := it][1..] == items[1..][j - 1 := it];
      MissingOfUpdate(u, items[1..], j - 1, it);
    } else {
      assert items[j := it][1..] == items[1..];
    }
  }

  lemma {:induction false} MissingUpdate(u: set<Sym>, sets: seq<ItemSet>, i: nat, st: ItemSet)
    requires i < |sets|
    ensures Missing(u, sets[i := st]) + MissingOf(u, sets[i].items) == Missing(u, sets) + MissingOf(u, st.items)
    decreases |sets|
  {
    if i > 0 {
      assert sets[i := st][1..] == sets[1..][i - 1 := st];
      MissingUpdate(u, sets[1..], i - 1, st);
    } else {
      assert sets[i := st][1..] == sets[1..];
    }
  }

  /** A larger lookahead misses fewer symbols, strictly fewer when it gained one of `u`. */
  lemma MissingShrinks(u: set<Sym>, la: set<Sym>, la': set<Sym>)
    requires la <= la'
    ensures |u - la'| <= |u - la|
    ensures (exists x :: x in u && x in la' && x !in la) ==> |u - la'| < |u - la|
  {
    SubsetCardinality(u - la', u - la);
    if exists x :: x in u && x in la' && x !in la {
      var x :| x in u && x in la' && x !in la;
      assert x in (u - la) && x !in (u - la');
      StrictSubsetCardinality(u - la', u - la);
    }
  }

  /** Growing lookaheads never increase the measure, and any gain within `u` decreases it. */
  lemma {:induction false} MissingOfGrows(u: set<Sym>, a: seq<Item>, b: seq<Item>)
    requires Grows(a, b)
    ensures MissingOf(u, b) <= MissingOf(u, a)
    ensures (exists j, x :: 0 <= j < |a| && x in u && x in b[j].lookahead && x !in a[j].lookahead) ==>
      MissingOf(u, b) < MissingOf(u, a)
    decreases |a|
  {
    if a != [] {
      assert Grows(a[1..], b[1..]) by {
        assert forall j :: 0 <= j < |a| - 1 ==> Core(a[1..])[j] == Core(a)[j + 1] == Core(b)[j + 1] == Core(b[1..])[j];
      }
      MissingOfGrows(u, a[1..], b[1..]);
      MissingShrinks(u, a[0].lookahead, b[0].lookahead);
      if exists j, x :: 0 <= j < |a| && x in u && x in b[j].lookahead && x !in a[j].lookahead {
        var j, x :| 0 <= j < |a| && x in u && x in b[j].lookahead && x !in a[j].lookahead;
        if j > 0 {
          assert x in b[1..][j - 1].lookahead && x !in a[1..][j - 1].lookahead;
        }
      }
    }
  }

  /** All pairs of set numbers below `n`: the links can hold no others. */
  function AllPairs(n: nat): set<(nat, nat)> {
    set a: nat, b: nat | a < n && b < n :: (a, b)
  }

  // ---------------------------------------------------------------------------------------
  // Propagation inside one set

  /**
   * Passes lookaheads from `prod`, whose dot stands before `cursor`'s lhs, to `cursor`:
   * when the dot of `prod` is before its last symbol the whole lookahead set of `prod` is
   * passed, otherwise the symbol after the dot symbol.
   */
  function Pass(prod: Item, cursor: Item): (r: Item)
    requires !IsAtEnd(prod)
    ensures CoreOf(r) == CoreOf(cursor)
    ensures prod.dot + 1 == |prod.rule.rhs| ==> r.lookahead == cursor.lookahead + prod.lookahead
    ensures prod.dot + 1 < |prod.rule.rhs| ==> r.lookahead == cursor.lookahead + {prod.rule.rhs[prod.dot + 1]}
  {
    if prod.dot + 1 == |prod.rule.rhs| then cursor.(lookahead := cursor.lookahead + prod.lookahead)
    else cursor.(lookahead := cursor.lookahead + {NextSymbol(prod)})
  }

  /** The symbols the stack starts with: for each item (outer) and each start item (inner)
      with the same core, the item's dot symbol, unless the dot is at the end. */
  function StartSymbols(items: seq<Item>, starts: seq<Item>): (xs: seq<Sym>)
    ensures forall x :: x in xs ==> exists j :: 0 <= j < |items| && Advanceable(items[j], x)
    decreases |items|
  {
    if items == [] then []
    else
      var rest := StartSymbols(items[1..], starts);
      assert forall x :: x in rest ==> exists j :: 0 <= j < |items| && Advanceable(items[j], x) by {
        forall x | x in rest
          ensures exists j :: 0 <= j < |items| && Advanceable(items[j], x)
        {
          var j :| 0 <= j < |items[1..]| && Advanceable(items[1..][j], x);
          assert Advanceable(items[j + 1], x);
        }
      }
      StartsFor(items[0], starts) + rest
  }

  function StartsFor(prod: Item, starts: seq<Item>): (xs: seq<Sym>)
    ensures forall x :: x in xs ==> Advanceable(prod, x)
    decreases |starts|
  {
    if starts == [] then []
    else
      var here := if CoreOf(starts[0]) == CoreOf(prod) && !IsAtEnd(prod) then [DotSymbol(prod)] else [];
      here + StartsFor(prod, starts[1..])
  }

  lemma PassStep(rules: seq<Rule>, items: seq<Item>, pi: nat, ci: nat)
    requires pi < |items| && ci < |items| && !IsAtEnd(items[pi])
    requires ItemsOk(rules, items)
    ensures var items' := items[ci := Pass(items[pi], items[ci])];
      && Grows(items, items') && ItemsOk(rules, items')
      && MissingOf(Universe(rules), items') <= MissingOf(Universe(rules), items)
      && (items'[ci].lookahead != items[ci].lookahead ==>
            MissingOf(Universe(rules), items') < MissingOf(Universe(rules), items))
  {
    var u := Universe(rules);
    var it := Pass(items[pi], items[ci]);
    assert items[pi].rule in rules;
    assert it.lookahead <= u;
    ItemGrowsShape(rules, items, ci, it);
    ItemGrowsMeasure(u, items, ci, it);
  }

  /** Replacing one item by one with the same core, a larger lookahead and a symbol of the
      grammar keeps the items grown and well-formed. */
  lemma ItemGrowsShape(rules: seq<Rule>, items: seq<Item>, ci: nat, it: Item)
    requires ci < |items| && ItemsOk(rules, items)
    requires CoreOf(it) == CoreOf(items[ci]) && items[ci].lookahead <= it.lookahead <= Universe(rules)
    ensures Grows(items, items[ci := it]) && ItemsOk(rules, items[ci := it])
  {
    var items' := items[ci := it];
    assert Core(items') == Core(items) by {
      forall j | 0 <= j < |items|
        ensures Core(items')[j] == Core(items)[j]
      {
      }
    }
  }

  /** A grown lookahead never raises the measure, and lowers it when it gained a symbol. */
  lemma ItemGrowsMeasure(u: set<Sym>, items: seq<Item>, ci: nat, it: Item)
    requires ci < |items| && items[ci].lookahead <= it.lookahead <= u
    ensures MissingOf(u, items[ci := it]) <= MissingOf(u, items)
    ensures it.lookahead != items[ci].lookahead ==> MissingOf(u, items[ci := it]) < MissingOf(u, items)
  {
    MissingOfUpdate(u, items, ci, it);
    MissingShrinks(u, items[ci].lookahead, it.lookahead);
    if it.lookahead != items[ci].lookahead {
      var x :| x in it.lookahead && x !in items[ci].lookahead;
    }
  }

  /**
   * The first phase of generateLookAheads on one set's items.  The stack starts with the
   * dot symbols of the items whose core is one of `starts`; for each popped symbol N, every
   * item whose dot stands before N passes its lookaheads (Pass) to every item whose lhs is
   * N, and a receiving item that gained something and whose dot stands before a nonterminal
   * pushes that nonterminal.  Cores never change, lookaheads only grow within the universe.
   */
  method Within(rules: seq<Rule>, items0: seq<Item>, starts: seq<Item>) returns (items: seq<Item>)
    requires ItemsOk(rules, items0)
    ensures Grows(items0, items) && ItemsOk(rules, items)
  {
    var u := Universe(rules);
    items := items0;
    var stack := StartSymbols(items0, starts);
    while stack != []
      invariant Grows(items0, items) && ItemsOk(rules, items)
      decreases MissingOf(u, items), |stack|
    {
      var n := stack[|stack| - 1];
      stack := stack[..|stack| - 1];
      ghost var m0, stack0 := MissingOf(u, items), stack;
      var pi := 0;
      while pi < |items|
        invariant Grows(items0, items) && ItemsOk(rules, items)
        invariant MissingOf(u, items) < m0 || (MissingOf(u, items) == m0 && stack == stack0)
      {
        if !IsAtEnd(items[pi]) && DotSymbol(items[pi]) == n {
          var ci := 0;
          while ci < |items|
            invariant Grows(items0, items) && ItemsOk(rules, items)
            invariant !IsAtEnd(items[pi])
            invariant MissingOf(u, items) < m0 || (MissingOf(u, items) == m0 && stack == stack0)
          {
            if items[ci].rule.lhs == n {
              var cursor := Pass(items[pi], items[ci]);
              var gained := cursor.lookahead != items[ci].lookahead;
              PassStep(rules, items, pi, ci);
              GrowsTrans(items0, items, items[ci := cursor]);
              items := items[ci := cursor];
              if gained && !IsAtEnd(cursor) && DotSymbol(cursor).kind == Nonterminal {
                stack := stack + [DotSymbol(cursor)];
              }
            }
            ci := ci + 1;
          }
        }
        pi := pi + 1;
      }
    }
  }

  lemma GrowsTrans(a: seq<Item>, b: seq<Item>, c: seq<Item>)
    requires Grows(a, b) && Grows(b, c)
    ensures Grows(a, c)
  {
  }

  // ---------------------------------------------------------------------------------------
  // Propagation along transitions

  /** The first item of `items` with the given rule and dot. */
  function FirstMatch(items: seq<Item>, rule: Rule, dot: nat): (r: Option<nat>)
    ensures r.Some? ==> r.value < |items| && items[r.value].rule == rule && items[r.value].dot == dot
    ensures r.Some? ==> forall k :: 0 <= k < r.value ==> !(items[k].rule == rule && items[k].dot == dot)
    ensures r.None? ==> forall k :: 0 <= k < |items| ==> !(items[k].rule == rule && items[k].dot == dot)
    decreases |items|
  {
    if items == [] then None
    else if items[0].rule == rule && items[0].dot == dot then Some(0)
    else match FirstMatch(items[1..], rule, dot)
      case None => None
      case Some(k) => Some(k + 1)
  }

  /** What an item of a target set inherits from the source set: the lookaheads of the first
      source item it is the advanced copy of, if any. */
  function Inherited(items: seq<Item>, it: Item): set<Sym> {
    if it.dot == 0 then {}
    else match FirstMatch(items, it.rule, it.dot - 1)
      case None => {}
      case Some(k) => items[k].lookahead
  }

  lemma {:induction false} CopyStep(rules: seq<Rule>, sets: seq<ItemSet>, t: nat, j: nat, prod: Item)
    requires t < |sets| && j < |sets[t].items| && SetsOk(rules, sets)
    requires CoreOf(prod) == CoreOf(sets[t].items[j])
    requires sets[t].items[j].lookahead <= prod.lookahead <= Universe(rules)
    ensures var sets' := sets[t := sets[t].(items := sets[t].items[j := prod])];
      && SetsGrow(sets, sets') && SetsOk(rules, sets')
      && Missing(Universe(rules), sets') <= Missing(Universe(rules), sets)
      && (prod.lookahead != sets[t].items[j].lookahead ==>
            Missing(Universe(rules), sets') < Missing(Universe(rules), sets))
  {
    CopyStepShape(rules, sets, t, j, prod);
    CopyStepMeasure(Universe(rules), sets, t, j, prod);
  }

  lemma {:induction false} CopyStepShape(rules: seq<Rule>, sets: seq<ItemSet>, t: nat, j: nat, prod: Item)
    requires t < |sets| && j < |sets[t].items| && SetsOk(rules, sets)
    requires CoreOf(prod) == CoreOf(sets[t].items[j])
    requires sets[t].items[j].lookahead <= prod.lookahead <= Universe(rules)
    ensures var sets' := sets[t := sets[t].(items := sets[t].items[j := prod])];
      SetsGrow(sets, sets') && SetsOk(rules, sets')
  {
    var items := sets[t].items;
    var items' := items[j := prod];
    assert Core(items') == Core(items) by {
      forall k | 0 <= k < |items|
        ensures Core(items')[k] == Core(items)[k]
      {
      }
    }
  }

  lemma {:induction false} CopyStepMeasure(u: set<Sym>, sets: seq<ItemSet>, t: nat, j: nat, prod: Item)
    requires t < |sets| && j < |sets[t].items|
    requires sets[t].items[j].lookahead <= prod.lookahead <= u
    ensures var sets' := sets[t := sets[t].(items := sets[t].items[j := prod])];
      && Missing(u, sets') <= Missing(u, sets)
      && (prod.lookahead != sets[t].items[j].lookahead ==> Missing(u, sets') < Missing(u, sets))
  {
    var items := sets[t].items;
    var items' := items[j := prod];
    MissingOfUpdate(u, items, j, prod);
    MissingUpdate(u, sets, t, sets[t].(items := items'));
    MissingShrinks(u, items[j].lookahead, prod.lookahead);
    if prod.lookahead != items[j].lookahead {
      var x :| x in prod.lookahead && x !in items[j].lookahead;
    }
  }

  /** The loop invariant of CopyForward after `j` items of set t: the measure part ... */
  ghost predicate CopyMeasureInv(rules: seq<Rule>, sets0: seq<ItemSet>, t: nat, sets: seq<ItemSet>, changed: bool)
    requires t < |sets0|
  {
    && |sets0| == |sets|
    && SetsGrow(sets0, sets) && SetsOk(rules, sets)
    && (forall i :: 0 <= i < |sets0| && i != t ==> sets[i] == sets0[i])
    && (changed ==> Missing(Universe(rules), sets) < Missing(Universe(rules), sets0))
    && (!changed ==> sets == sets0)
  }

  /** ... and the items part. */
  ghost predicate CopyItemsInv(sets0: seq<ItemSet>, s: nat, t: nat, j: nat, sets: seq<ItemSet>, nextProds: seq<Item>)
    requires s < |sets0| && t < |sets0| && |sets| == |sets0|
  {
    && j <= |sets[t].items| == |sets0[t].items|
    && (forall i :: 0 <= i < |sets0| && i != t ==> sets[i] == sets0[i])
    && (forall k :: j <= k < |sets[t].items| ==> sets[t].items[k] == sets0[t].items[k])
    && (s != t ==> forall k :: 0 <= k < j ==>
         sets[t].items[k].lookahead == sets0[t].items[k].lookahead + Inherited(sets0[s].items, sets0[t].items[k]))
    && (forall p :: p in nextProds ==> exists k :: 0 <= k < j && sets[t].items[k] == p && p.dot > 0)
  }

  /** ... and the gain part, which holds for a self-loop too: each of the first `j` items of
      set t holds at least its old lookahead and what it inherits from the original set s. */
  ghost predicate CopyGainInv(sets0: seq<ItemSet>, s: nat, t: nat, j: nat, sets: seq<ItemSet>)
    requires s < |sets0| && t < |sets0| && |sets| == |sets0|
    requires j <= |sets[t].items| == |sets0[t].items|
  {
    forall k :: 0 <= k < j ==>
      sets0[t].items[k].lookahead + Inherited(sets0[s].items, sets0[t].items[k]) <= sets[t].items[k].lookahead
  }

  /** The first item with a given rule and dot depends only on the cores. */
  lemma FirstMatchOfCore(a: seq<Item>, b: seq<Item>, rule: Rule, dot: nat)
    requires Core(a) == Core(b)
    ensures FirstMatch(a, rule, dot) == FirstMatch(b, rule, dot)
  {
    assert forall k :: 0 <= k < |a| ==> a[k].rule == b[k].rule && a[k].dot == b[k].dot by {
      forall k | 0 <= k < |a|
        ensures a[k].rule == b[k].rule && a[k].dot == b[k].dot
      {
        assert Core(a)[k] == Core(b)[k];
      }
    }
  }

  /** One copy step keeps the gain part: set s has only grown since the copy began, and its
      first matching item is the same one, so item `j` receives at least the original
      inherited lookahead. */
  lemma CopyItemGain(sets0: seq<ItemSet>, s: nat, t: nat, j: nat, sets: seq<ItemSet>)
    requires s < |sets0| && t < |sets0| && |sets| == |sets0|
    requires j < |sets[t].items| == |sets0[t].items| && sets[t].items[j] == sets0[t].items[j]
    requires Grows(sets0[s].items, sets[s].items)
    requires CopyGainInv(sets0, s, t, j, sets)
    ensures |CopyItem(sets, s, t, j).0[t].items| == |sets0[t].items|
    ensures CopyGainInv(sets0, s, t, j + 1, CopyItem(sets, s, t, j).0)
  {
    var r := CopyItem(sets, s, t, j).0;
    CopyItemGainAt(s, t, j, sets, sets0[s].items);
    forall k | 0 <= k < j + 1
      ensures sets0[t].items[k].lookahead + Inherited(sets0[s].items, sets0[t].items[k]) <= r[t].items[k].lookahead
    {
      if k < j {
        assert r[t].items[k] == sets[t].items[k];
      }
    }
  }

  /** Item `j` receives at least what it inherits from `src`, any items with the cores of
      set s and no larger lookaheads. */
  lemma CopyItemGainAt(s: nat, t: nat, j: nat, sets: seq<ItemSet>, src: seq<Item>)
    requires s < |sets| && t < |sets| && j < |sets[t].items|
    requires Grows(src, sets[s].items)
    ensures sets[t].items[j].lookahead + Inherited(src, sets[t].items[j]) <= CopyItem(sets, s, t, j).0[t].items[j].lookahead
  {
    var prod := sets[t].items[j];
    var inh := Inherited(src, prod);
    if prod.dot > 0 {
      FirstMatchOfCore(src, sets[s].items, prod.rule, prod.dot - 1);
      match FirstMatch(sets[s].items, prod.rule, prod.dot - 1)
      case None =>
        assert inh == {};
      case Some(k) =>
        assert inh == src[k].lookahead <= sets[s].items[k].lookahead;
    }
  }

  /** One item of the copy: the item at `j` of set t absorbs the lookaheads of the first
      item of set s (as it is now) with its rule and the dot one symbol earlier. */
  function CopyItem(sets: seq<ItemSet>, s: nat, t: nat, j: nat): (r: (seq<ItemSet>, seq<Item>, bool))
    requires s < |sets| && t < |sets| && j < |sets[t].items|
    ensures |r.0| == |sets| && |r.0[t].items| == |sets[t].items|
    ensures forall i :: 0 <= i < |sets| && i != t ==> r.0[i] == sets[i]
    ensures forall k :: 0 <= k < |sets[t].items| && k != j ==> r.0[t].items[k] == sets[t].items[k]
  {
    var prod := sets[t].items[j];
    if prod.dot == 0 then (sets, [], false)
    else match FirstMatch(sets[s].items, prod.rule, prod.dot - 1)
      case None => (sets, [], false)
      case Some(k) =>
        var tracked := sets[s].items[k];
        var prod' := prod.(lookahead := prod.lookahead + tracked.lookahead);
        (sets[t := sets[t].(items := sets[t].items[j := prod'])], [prod'], !(tracked.lookahead <= prod.lookahead))
  }

  lemma CopyItemMeasure(rules: seq<Rule>, sets0: seq<ItemSet>, s: nat, t: nat, j: nat, sets: seq<ItemSet>, changed: bool)
    requires s < |sets0| && t < |sets0|
    requires CopyMeasureInv(rules, sets0, t, sets, changed) && j < |sets[t].items|
    ensures CopyMeasureInv(rules, sets0, t, CopyItem(sets, s, t, j).0, changed || CopyItem(sets, s, t, j).2)
  {
    var prod := sets[t].items[j];
    if prod.dot > 0 && FirstMatch(sets[s].items, prod.rule, prod.dot - 1).Some? {
      var k := FirstMatch(sets[s].items, prod.rule, prod.dot - 1).value;
      var tracked := sets[s].items[k];
      var prod' := prod.(lookahead := prod.lookahead + tracked.lookahead);
      assert tracked.lookahead <= Universe(rules);
      assert !(tracked.lookahead <= prod.lookahead) <==> prod'.lookahead != prod.lookahead;
      CopyMeasureUpdate(rules, sets0, t, j, sets, changed, prod', !(tracked.lookahead <= prod.lookahead));
      assert CopyItem(sets, s, t, j).0 == sets[t := sets[t].(items := sets[t].items[j := prod'])];
      assert CopyItem(sets, s, t, j).2 == !(tracked.lookahead <= prod.lookahead);
    } else {
      assert CopyItem(sets, s, t, j).0 == sets && !CopyItem(sets, s, t, j).2;
    }
  }

  /** Growing one item's lookahead within the universe keeps the copy's measure invariant,
      with `ch` telling whether it actually grew. */
  lemma CopyMeasureUpdate(rules: seq<Rule>, sets0: seq<ItemSet>, t: nat, j: nat, sets: seq<ItemSet>, changed: bool,
                          prod: Item, ch: bool)
    requires t < |sets0| && CopyMeasureInv(rules, sets0, t, sets, changed) && j < |sets[t].items|
    requires CoreOf(prod) == CoreOf(sets[t].items[j])
    requires sets[t].items[j].lookahead <= prod.lookahead <= Universe(rules)
    requires ch <==> prod.lookahead != sets[t].items[j].lookahead
    ensures CopyMeasureInv(rules, sets0, t, sets[t := sets[t].(items := sets[t].items[j := prod])], changed || ch)
  {
    var sets' := sets[t := sets[t].(items := sets[t].items[j := prod])];
    CopyStep(rules, sets, t, j, prod);
    SetsGrowTrans(sets0, sets, sets');
    if !ch {
      assert prod == sets[t].items[j];
      assert sets[t].items[j := prod] == sets[t].items;
      assert sets' == sets;
    }
  }

  lemma CopyItemItems(sets0: seq<ItemSet>, s: nat, t: nat, j: nat, sets: seq<ItemSet>, nextProds: seq<Item>)
    requires s < |sets0| && t < |sets0| && |sets| == |sets0|
    requires CopyItemsInv(sets0, s, t, j, sets, nextProds) && j < |sets[t].items|
    ensures CopyItemsInv(sets0, s, t, j + 1, CopyItem(sets, s, t, j).0, nextProds + CopyItem(sets, s, t, j).1)
  {
    CopyItemAt(sets0, s, t, j, sets, nextProds);
    var r := CopyItem(sets, s, t, j);
    CopyItemsExtend(sets0, s, t, j, sets, nextProds, r.0, r.1);
  }

  /** What one copy step does to item `j` of set t: with s != t it absorbs the inherited
      lookahead of the original sets, and it is the one receiving item the step reports. */
  lemma CopyItemAt(sets0: seq<ItemSet>, s: nat, t: nat, j: nat, sets: seq<ItemSet>, nextProds: seq<Item>)
    requires s < |sets0| && t < |sets0| && |sets| == |sets0|
    requires CopyItemsInv(sets0, s, t, j, sets, nextProds) && j < |sets[t].items|
    ensures var r := CopyItem(sets, s, t, j);
      && (s != t ==>
            r.0[t].items[j].lookahead == sets0[t].items[j].lookahead + Inherited(sets0[s].items, sets0[t].items[j]))
      && (forall p :: p in r.1 ==> r.0[t].items[j] == p && p.dot > 0)
  {
    assert sets[t].items[j] == sets0[t].items[j];
    if s != t {
      assert sets[s] == sets0[s];
    }
  }

  /** The copy invariant moves past item `j` once that item is updated as the step does. */
  lemma CopyItemsExtend(sets0: seq<ItemSet>, s: nat, t: nat, j: nat, sets: seq<ItemSet>, nextProds: seq<Item>,
                        sets': seq<ItemSet>, np: seq<Item>)
    requires s < |sets0| && t < |sets0| && |sets| == |sets0|
    requires CopyItemsInv(sets0, s, t, j, sets, nextProds) && j < |sets[t].items|
    requires |sets'| == |sets| && |sets'[t].items| == |sets[t].items|
    requires forall i :: 0 <= i < |sets| && i != t ==> sets'[i] == sets[i]
    requires forall k :: 0 <= k < |sets[t].items| && k != j ==> sets'[t].items[k] == sets[t].items[k]
    requires s != t ==>
      sets'[t].items[j].lookahead == sets0[t].items[j].lookahead + Inherited(sets0[s].items, sets0[t].items[j])
    requires forall p :: p in np ==> sets'[t].items[j] == p && p.dot > 0
    ensures CopyItemsInv(sets0, s, t, j + 1, sets', nextProds + np)
  {
    ReceiversStep(sets[t].items, sets'[t].items, j, nextProds, np);
  }

  /** The receiving items listed so far stay where they are when item `j` is updated, and
      the updated item joins them. */
  lemma ReceiversStep(items: seq<Item>, items': seq<Item>, j: nat, nextProds: seq<Item>, np: seq<Item>)
    requires j < |items| == |items'|
    requires forall k :: 0 <= k < j ==> items'[k] == items[k]
    requires forall p :: p in nextProds ==> exists k :: 0 <= k < j && items[k] == p && p.dot > 0
    requires forall p :: p in np ==> items'[j] == p && p.dot > 0
    ensures forall p :: p in nextProds + np ==> exists k :: 0 <= k < j + 1 && items'[k] == p && p.dot > 0
  {
    forall p | p in nextProds + np
      ensures exists k :: 0 <= k < j + 1 && items'[k] == p && p.dot > 0
    {
      if p in nextProds {
        var k :| 0 <= k < j && items[k] == p && p.dot > 0;
        assert items'[k] == p;
      } else {
        assert items'[j] == p;
      }
    }
  }

  /**
   * The copy along transition s -> t (one iteration of generateLookAheads' last loop,
   * before the links are updated): every item of set t with its dot past the start
   * receives the lookaheads of the first item of set s with the same rule and the dot one
   * symbol earlier.  Set s is read as it is at each step, so when s == t an item may pass
   * on what it received earlier in the same copy.  `changed` tells whether any item gained
   * a symbol, and `nextProds` lists the receiving items.
   */
  method CopyForward(rules: seq<Rule>, sets0: seq<ItemSet>, s: nat, t: nat)
    returns (sets: seq<ItemSet>, nextProds: seq<Item>, changed: bool)
    requires s < |sets0| && t < |sets0| && SetsOk(rules, sets0)
    ensures SetsGrow(sets0, sets) && SetsOk(rules, sets)
    ensures forall i :: 0 <= i < |sets0| && i != t ==> sets[i] == sets0[i]
    ensures changed ==> Missing(Universe(rules), sets) < Missing(Universe(rules), sets0)
    ensures !changed ==> sets == sets0
    ensures s != t ==> forall j :: 0 <= j < |sets0[t].items| ==>
      sets[t].items[j].lookahead == sets0[t].items[j].lookahead + Inherited(sets0[s].items, sets0[t].items[j])
    ensures forall j :: 0 <= j < |sets0[t].items| ==>
      sets0[t].items[j].lookahead + Inherited(sets0[s].items, sets0[t].items[j]) <= sets[t].items[j].lookahead
    ensures forall p :: p in nextProds ==> p in sets[t].items && p.dot > 0
  {
    sets, nextProds, changed := sets0, [], false;
    var j := 0;
    while j < |sets[t].items|
      invariant CopyMeasureInv(rules, sets0, t, sets, changed)
      invariant CopyItemsInv(sets0, s, t, j, sets, nextProds)
      invariant CopyGainInv(sets0, s, t, j, sets)
    {
      CopyItemMeasure(rules, sets0, s, t, j, sets, changed);
      CopyItemItems(sets0, s, t, j, sets, nextProds);
      assert Grows(sets0[s].items, sets[s].items);
      CopyItemGain(sets0, s, t, j, sets);
      var (sets', np, ch) := CopyItem(sets, s, t, j);
      sets, nextProds, changed := sets', nextProds + np, changed || ch;
      j := j + 1;
    }
  }

  lemma SetsGrowTrans(a: seq<ItemSet>, b: seq<ItemSet>, c: seq<ItemSet>)
    requires SetsGrow(a, b) && SetsGrow(b, c)
    ensures SetsGrow(a, c)
  {
  }

  lemma LinksMeasure(all: set<(nat, nat)>, links0: set<(nat, nat)>, links: set<(nat, nat)>)
    requires links0 <= links <= all
    ensures |all - links| <= |all - links0|
    ensures |links0| < |links| ==> |all - links| < |all - links0|
    ensures |links| - |links0| >= 0
  {
    SubsetCardinality(links0, links);
    SubsetCardinality(all - links, all - links0);
    if |links0| < |links| {
      var d := links - links0;
      assert links == links0 + d;
      assert d != {};
      var x :| x in d;
      assert x in all - links0 && x !in all - links;
      StrictSubsetCardinality(all - links, all - links0);
    }
  }

  /** Every transition leads to an existing set. */
  predicate TargetsOk(sets: seq<ItemSet>) {
    forall i, m :: 0 <= i < |sets| && 0 <= m < |sets[i].next| ==> sets[i].next[m].1 < |sets|
  }

  lemma WithinInSets(rules: seq<Rule>, sets: seq<ItemSet>, s: nat, items: seq<Item>)
    requires s < |sets| && SetsOk(rules, sets)
    requires Grows(sets[s].items, items) && ItemsOk(rules, items)
    ensures var sets' := sets[s := sets[s].(items := items)];
      SetsGrow(sets, sets') && SetsOk(rules, sets') && Missing(Universe(rules), sets') <= Missing(Universe(rules), sets)
  {
    var u := Universe(rules);
    var sets' := sets[s := sets[s].(items := items)];
    WithinShape(rules, sets, s, items);
    MissingUpdate(u, sets, s, sets'[s]);
    MissingOfGrows(u, sets[s].items, items);
  }

  /** Replacing one set's items by grown, well-formed ones keeps the sets grown and
      well-formed. */
  lemma WithinShape(rules: seq<Rule>, sets: seq<ItemSet>, s: nat, items: seq<Item>)
    requires s < |sets| && SetsOk(rules, sets)
    requires Grows(sets[s].items, items) && ItemsOk(rules, items)
    ensures var sets' := sets[s := sets[s].(items := items)];
      SetsGrow(sets, sets') && SetsOk(rules, sets')
  {
  }

  /** The links after copying from `s` to `t`: a change to `t` drops the links out of `t`
      (its successors must see the new lookaheads), then `s` is linked to `t`. */
  function Relink(links: set<(nat, nat)>, s: nat, t: nat, changed: bool): (r: set<(nat, nat)>)
    ensures (s, t) in r
    ensures forall l :: l in r && l != (s, t) ==> l in links && (changed ==> l.0 != t)
    ensures forall l :: l in links && (!changed || l.0 != t) ==> l in r
  {
    (if changed then set l | l in links && l.0 != t else links) + {(s, t)}
  }

  /** Progress of the copy loop over one set's transitions: either some lookahead was
      added, or only new links were made, each of them queueing one entry. */
  ghost predicate EdgeProgress(u: set<Sym>, m0: nat, links0: set<(nat, nat)>, n0: nat,
                               sets: seq<ItemSet>, links: set<(nat, nat)>, bus: seq<(nat, seq<Item>)>)
  {
    Missing(u, sets) < m0 || (Missing(u, sets) == m0 && links0 <= links && |bus| == n0 + |links| - |links0|)
  }

  /** Copy along every transition of set `s` whose pair is not linked. */
  method CopyEdges(rules: seq<Rule>, sets0: seq<ItemSet>, s: nat,
                   links0: set<(nat, nat)>, bus0: seq<(nat, seq<Item>)>)
    returns (sets: seq<ItemSet>, links: set<(nat, nat)>, bus: seq<(nat, seq<Item>)>)
    requires s < |sets0| && SetsOk(rules, sets0) && TargetsOk(sets0)
    requires links0 <= AllPairs(|sets0|)
    requires forall b :: b in bus0 ==> b.0 < |sets0|
    ensures SetsGrow(sets0, sets) && SetsOk(rules, sets) && TargetsOk(sets)
    ensures links <= AllPairs(|sets|)
    ensures forall b :: b in bus ==> b.0 < |sets|
    ensures EdgeProgress(Universe(rules), Missing(Universe(rules), sets0), links0, |bus0|, sets, links, bus)
  {
    sets, links, bus := sets0, links0, bus0;
    var edges := sets0[s].next;
    for e := 0 to |edges|
      invariant EdgesInv(rules, sets0, s, edges, links0, bus0, sets, links, bus)
    {
      var t := edges[e].1;
      if (s, t) !in links {
        var sets', np, changed := CopyForward(rules, sets, s, t);
        EdgeCopied(rules, sets0, s, edges, links0, bus0, sets, links, bus, e, sets', np, changed);
        links := Relink(links, s, t, changed);
        bus := bus + [(t, np)];
        sets := sets';
      }
    }
  }

  /** The invariant of the copy loop over the transitions `edges` of set `s`. */
  ghost predicate EdgesInv(rules: seq<Rule>, sets0: seq<ItemSet>, s: nat, edges: seq<(Sym, nat)>,
                           links0: set<(nat, nat)>, bus0: seq<(nat, seq<Item>)>,
                           sets: seq<ItemSet>, links: set<(nat, nat)>, bus: seq<(nat, seq<Item>)>)
  {
    && SetsGrow(sets0, sets) && SetsOk(rules, sets) && TargetsOk(sets)
    && s < |sets| && edges == sets[s].next
    && links <= AllPairs(|sets|)
    && (forall b :: b in bus ==> b.0 < |sets|)
    && EdgeProgress(Universe(rules), Missing(Universe(rules), sets0), links0, |bus0|, sets, links, bus)
  }

  /** Copying along an unlinked transition keeps the loop invariant. */
  lemma EdgeCopied(rules: seq<Rule>, sets0: seq<ItemSet>, s: nat, edges: seq<(Sym, nat)>,
                   links0: set<(nat, nat)>, bus0: seq<(nat, seq<Item>)>,
                   sets: seq<ItemSet>, links: set<(nat, nat)>, bus: seq<(nat, seq<Item>)>,
                   e: nat, sets': seq<ItemSet>, np: seq<Item>, changed: bool)
    requires EdgesInv(rules, sets0, s, edges, links0, bus0, sets, links, bus)
    requires e < |edges| && (s, edges[e].1) !in links
    requires SetsGrow(sets, sets') && SetsOk(rules, sets')
    requires changed ==> Missing(Universe(rules), sets') < Missing(Universe(rules), sets)
    requires !changed ==> sets' == sets
    ensures EdgesInv(rules, sets0, s, edges, links0, bus0, sets', Relink(links, s, edges[e].1, changed),
                     bus + [(edges[e].1, np)])
  {
    var t := edges[e].1;
    SetsGrowTrans(sets0, sets, sets');
    assert (s, t) in AllPairs(|sets|);
  }

  /**
   * The second worklist of generateTables.  It starts with state 0 and the augmented start
   * item; each entry runs the propagation inside its set (Within), then copies along every
   * transition of the set whose (source, target) pair is not linked (CopyEdges).  Only
   * lookaheads change, they only grow, and they stay within the grammar's symbols and "$".
   */
  method Propagate(rules: seq<Rule>, start: Sym, sets0: seq<ItemSet>) returns (sets: seq<ItemSet>)
    requires |sets0| > 0 && SetsOk(rules, sets0) && TargetsOk(sets0)
    ensures SetsGrow(sets0, sets) && SetsOk(rules, sets)
  {
    var u := Universe(rules);
    sets := sets0;
    var links: set<(nat, nat)> := {};
    var bus: seq<(nat, seq<Item>)> := [(0, [StartItem(start)])];
    while bus != []
      invariant SetsGrow(sets0, sets) && SetsOk(rules, sets) && TargetsOk(sets)
      invariant forall b :: b in bus ==> b.0 < |sets|
      invariant links <= AllPairs(|sets|)
      decreases Missing(u, sets), |AllPairs(|sets|) - links|, |bus|
    {
      ghost var m0, links0, n0 := Missing(u, sets), links, |bus|;
      var s, starts := bus[0].0, bus[0].1;
      bus := bus[1..];
      var items := Within(rules, sets[s].items, starts);
      WithinInSets(rules, sets, s, items);
      SetsGrowTrans(sets0, sets, sets[s := sets[s].(items := items)]);
      sets := sets[s := sets[s].(items := items)];
      ghost var m1 := Missing(u, sets);
      sets, links, bus := CopyEdges(rules, sets, s, links, bus);
      if m1 == m0 && Missing(u, sets) == m0 {
        LinksMeasure(AllPairs(|sets|), links0, links);
      }
    }
  }
}
