/**
 * deriveLookAheads of the table generator (Peg/src/peg.cpp): propagation leaves nonterminal
 * placeholders in the lookahead sets (the symbol after the one behind a dot may be a
 * nonterminal).  Each placeholder is replaced by the terminals that can begin it, following
 * the first right-hand-side symbol of its rules, with a `checked` set so that left
 * recursion stops.
 */
module Derive {
  import opened Grammar
  import opened ItemSets
  import opened Collections

  /** `b` is the first right-hand-side symbol of a rule for the nonterminal `a`. */
  predicate FirstStep(g: seq<Rule>, a: Sym, b: Sym) {
    a.kind == Nonterminal && exists r :: r in g && r.lhs == a && |r.rhs| > 0 && r.rhs[0] == b
  }

  /** A chain of first-symbol steps. */
  ghost predicate Path(g: seq<Rule>, p: seq<Sym>) {
    |p| > 0 && forall i :: 0 <= i < |p| - 1 ==> FirstStep(g, p[i], p[i + 1])
  }

  /** `x` is reached from a symbol of `from` by first-symbol steps (in zero or more). */
  ghost predicate Leads(g: seq<Rule>, from: set<Sym>, x: Sym) {
    exists p :: Path(g, p) && p[0] in from && p[|p| - 1] == x
  }

  /** What the source pushes after popping the nonterminal `a`: the first symbol of each
      non-empty rule for `a`, in grammar order, unless it is already checked. */
  function Firsts(g: seq<Rule>, a: Sym, checked: set<Sym>): (r: seq<Sym>)
    requires a.kind == Nonterminal
    ensures forall b :: b in r <==> b !in checked && FirstStep(g, a, b)
    decreases |g|
  {
    if g == [] then []
    else
      var front, last := g[..|g| - 1], g[|g| - 1];
      assert g == front + [last];
      var rest := Firsts(front, a, checked);
      if last.lhs == a && |last.rhs| > 0 && last.rhs[0] !in checked then rest + [last.rhs[0]] else rest
  }

  /** The number of stack entries that are already checked. */
  function CheckedCount(stack: seq<Sym>, checked: set<Sym>): (n: nat)
    ensures n <= |stack|
    decreases |stack|
  {
    if stack == [] then 0
    else CheckedCount(stack[..|stack| - 1], checked) + (if stack[|stack| - 1] in checked then 1 else 0)
  }

  lemma {:induction false} CheckedCountAppend(a: seq<Sym>, b: seq<Sym>, checked: set<Sym>)
    requires forall y :: y in b ==> y !in checked
    ensures CheckedCount(a + b, checked) == CheckedCount(a, checked)
    decreases |b|
  {
    if b == [] {
      assert a + b == a;
    } else {
      var b' := b[..|b| - 1];
      assert (a + b)[..|a + b| - 1] == a + b';
      assert b[|b| - 1] in b;
      CheckedCountAppend(a, b', checked);
    }
  }

  /** A path whose start lies in a set closed under first-symbol steps ends inside it. */
  lemma {:induction false} PathStaysIn(g: seq<Rule>, c: set<Sym>, p: seq<Sym>)
    requires Path(g, p) && p[0] in c
    requires forall a, b :: a in c && FirstStep(g, a, b) ==> b in c
    ensures p[|p| - 1] in c
    decreases |p|
  {
    if |p| > 1 {
      var q := p[..|p| - 1];
      forall i | 0 <= i < |q| - 1
        ensures FirstStep(g, q[i], q[i + 1])
      {
        assert q[i] == p[i] && q[i + 1] == p[i + 1];
      }
      PathStaysIn(g, c, q);
      assert FirstStep(g, p[|p| - 2], p[|p| - 1]);
    }
  }

  lemma LeadsStart(g: seq<Rule>, from: set<Sym>, x: Sym)
    requires x in from
    ensures Leads(g, from, x)
  {
    assert Path(g, [x]);
  }

  lemma LeadsStep(g: seq<Rule>, from: set<Sym>, a: Sym, b: Sym)
    requires Leads(g, from, a) && FirstStep(g, a, b)
    ensures Leads(g, from, b)
  {
    var p :| Path(g, p) && p[0] in from && p[|p| - 1] == a;
    var q := p + [b];
    assert forall i :: 0 <= i < |p| ==> q[i] == p[i];
    assert Path(g, q);
  }

  /** The symbols of a set, in some order (the source iterates a hash set). */
  method ToSeq(s: set<Sym>) returns (r: seq<Sym>)
    ensures forall y :: y in r <==> y in s
  {
    r := [];
    var rest := s;
    while rest != {}
      invariant forall y :: y in s <==> y in r || y in rest
      invariant forall y :: y in rest ==> y !in r
      decreases |rest|
    {
      var y :| y in rest;
      r := r + [y];
      rest := rest - {y};
    }
  }

  /** One iteration of the source's loop: pop the top symbol and mark it checked; a
      nonterminal pushes its unchecked first symbols, a terminal joins the result. */
  function Pop(g: seq<Rule>, stack: seq<Sym>, checked: set<Sym>, r: set<Sym>): (st: (seq<Sym>, set<Sym>, set<Sym>))
    requires stack != []
    ensures st.1 == checked + {stack[|stack| - 1]}
  {
    var s := stack[|stack| - 1];
    var checked' := checked + {s};
    if s.kind == Nonterminal then (stack[..|stack| - 1] + Firsts(g, s, checked'), checked', r)
    else (stack[..|stack| - 1], checked', r + {s})
  }

  /** The loop invariant of the derivation for one lookahead set `la`. */
  ghost predicate DeriveInv(g: seq<Rule>, la: set<Sym>, u: set<Sym>, stack: seq<Sym>, checked: set<Sym>, r: set<Sym>) {
    && checked <= u && (forall y :: y in stack ==> y in u)
    && (forall y :: y in la ==> y in checked || y in stack)
    && (forall y :: y in checked ==> Leads(g, la, y))
    && (forall y :: y in stack ==> Leads(g, la, y))
    && (forall a, b :: a in checked && FirstStep(g, a, b) ==> b in checked || b in stack)
    && (forall x :: x in r <==> x in checked && x.kind == Terminal)
  }

  lemma PopKeeps(g: seq<Rule>, la: set<Sym>, stack: seq<Sym>, checked: set<Sym>, r: set<Sym>)
    requires stack != [] && DeriveInv(g, la, la + SymbolsOf(g), stack, checked, r)
    ensures var st := Pop(g, stack, checked, r); DeriveInv(g, la, la + SymbolsOf(g), st.0, st.1, st.2)
  {
    var s := stack[|stack| - 1];
    var below := stack[..|stack| - 1];
    assert stack == below + [s];
    if s.kind == Nonterminal {
      PushedLead(g, la, s, checked + {s});
      PopNonterminalKeeps(g, la, below, s, checked, r);
    } else {
      PopTerminalKeeps(g, la, below, s, checked, r);
    }
  }

  /** The first symbols a reached nonterminal pushes are grammar symbols reached in turn. */
  lemma PushedLead(g: seq<Rule>, la: set<Sym>, s: Sym, checked: set<Sym>)
    requires s.kind == Nonterminal && Leads(g, la, s)
    ensures forall b :: b in Firsts(g, s, checked) ==> b in SymbolsOf(g) && Leads(g, la, b)
  {
    forall b | b in Firsts(g, s, checked)
      ensures b in SymbolsOf(g) && Leads(g, la, b)
    {
      var rule :| rule in g && rule.lhs == s && |rule.rhs| > 0 && rule.rhs[0] == b;
      assert b in rule.rhs;
      LeadsStep(g, la, s, b);
    }
  }

  lemma PopNonterminalKeeps(g: seq<Rule>, la: set<Sym>, below: seq<Sym>, s: Sym, checked: set<Sym>, r: set<Sym>)
    requires s.kind == Nonterminal && DeriveInv(g, la, la + SymbolsOf(g), below + [s], checked, r)
    requires forall b :: b in Firsts(g, s, checked + {s}) ==> b in SymbolsOf(g) && Leads(g, la, b)
    ensures DeriveInv(g, la, la + SymbolsOf(g), below + Firsts(g, s, checked + {s}), checked + {s}, r)
  {
    assert forall y :: y in below ==> y in below + [s];
  }

  lemma PopTerminalKeeps(g: seq<Rule>, la: set<Sym>, below: seq<Sym>, s: Sym, checked: set<Sym>, r: set<Sym>)
    requires s.kind == Terminal && DeriveInv(g, la, la + SymbolsOf(g), below + [s], checked, r)
    ensures DeriveInv(g, la, la + SymbolsOf(g), below, checked + {s}, r + {s})
  {
    assert forall y :: y in below ==> y in below + [s];
  }

  lemma PopShrinks(g: seq<Rule>, u: set<Sym>, stack: seq<Sym>, checked: set<Sym>, r: set<Sym>)
    requires stack != [] && stack[|stack| - 1] in u
    ensures var st := Pop(g, stack, checked, r);
      || |u - st.1| < |u - checked|
      || (|u - st.1| == |u - checked| && CheckedCount(st.0, st.1) < CheckedCount(stack, checked))
  {
    var s := stack[|stack| - 1];
    var below := stack[..|stack| - 1];
    assert stack == below + [s];
    var st := Pop(g, stack, checked, r);
    if s in checked {
      assert st.1 == checked;
      assert CheckedCount(stack, checked) == CheckedCount(below, checked) + 1;
      if s.kind == Nonterminal {
        CheckedCountAppend(below, Firsts(g, s, checked), checked);
      }
    } else {
      assert u - st.1 < u - checked by {
        assert s in u - checked;
      }
      StrictSubsetCardinality(u - st.1, u - checked);
    }
  }

  /**
   * The lookahead that deriveLookAheads computes for one item: exactly the terminals reached
   * from the old lookahead by first-symbol steps.  Old terminals are kept (zero steps), and a
   * nonterminal whose rules are all empty contributes nothing.
   */
  method DeriveOne(g: seq<Rule>, la: set<Sym>) returns (r: set<Sym>)
    ensures forall x :: x in r <==> x.kind == Terminal && Leads(g, la, x)
  {
    var stack := ToSeq(la);
    forall y | y in stack
      ensures Leads(g, la, y)
    {
      LeadsStart(g, la, y);
    }
    var checked: set<Sym> := {};
    r := {};
    ghost var u := la + SymbolsOf(g);
    while stack != []
      invariant DeriveInv(g, la, u, stack, checked, r)
      decreases |u - checked|, CheckedCount(stack, checked), |stack|
    {
      PopKeeps(g, la, stack, checked, r);
      PopShrinks(g, u, stack, checked, r);
      var st := Pop(g, stack, checked, r);
      stack, checked, r := st.0, st.1, st.2;
    }
    forall x: Sym | x.kind == Terminal && Leads(g, la, x)
      ensures x in r
    {
      var p :| Path(g, p) && p[0] in la && p[|p| - 1] == x;
      PathStaysIn(g, checked, p);
    }
  }

  /** deriveLookAheads applied to every item of one set. */
  method DeriveItems(g: seq<Rule>, items0: seq<Item>) returns (items: seq<Item>)
    ensures |items| == |items0| && Core(items) == Core(items0)
    ensures forall j, x :: 0 <= j < |items| ==>
      (x in items[j].lookahead <==> x.kind == Terminal && Leads(g, items0[j].lookahead, x))
  {
    items := items0;
    var j := 0;
    while j < |items0|
      invariant j <= |items0| && |items| == |items0| && Core(items) == Core(items0)
      invariant forall k :: j <= k < |items0| ==> items[k] == items0[k]
      invariant forall k, x :: 0 <= k < j ==>
        (x in items[k].lookahead <==> x.kind == Terminal && Leads(g, items0[k].lookahead, x))
    {
      var la := DeriveOne(g, items0[j].lookahead);
      items := items[j := items[j].(lookahead := la)];
      j := j + 1;
    }
  }

  /** deriveLookAheads over every set; numbers, transitions and cores are untouched. */
  method DeriveAll(g: seq<Rule>, sets0: seq<ItemSet>) returns (sets: seq<ItemSet>)
    ensures |sets| == |sets0|
    ensures forall i :: 0 <= i < |sets| ==>
      && sets[i].number == sets0[i].number && sets[i].next == sets0[i].next
      && |sets[i].items| == |sets0[i].items| && Core(sets[i].items) == Core(sets0[i].items)
    ensures forall i, j, x :: 0 <= i < |sets| && 0 <= j < |sets[i].items| ==>
      (x in sets[i].items[j].lookahead <==> x.kind == Terminal && Leads(g, sets0[i].items[j].lookahead, x))
  {
    sets := sets0;
    var i := 0;
    while i < |sets0|
      invariant i <= |sets0| && |sets| == |sets0|
      invariant forall k :: i <= k < |sets0| ==> sets[k] == sets0[k]
      invariant forall k :: 0 <= k < i ==>
        && sets[k].number == sets0[k].number && sets[k].next == sets0[k].next
        && |sets[k].items| == |sets0[k].items| && Core(sets[k].items) == Core(sets0[k].items)
      invariant forall k, j, x :: 0 <= k < i && 0 <= j < |sets[k].items| ==>
        (x in sets[k].items[j].lookahead <==> x.kind == Terminal && Leads(g, sets0[k].items[j].lookahead, x))
    {
      var items := DeriveItems(g, sets0[i].items);
      sets := sets[i := sets[i].(items := items)];
      i := i + 1;
    }
  }

  /** Every derived lookahead holds only terminals, and keeps the old terminals. */
  lemma DerivedTerminals(g: seq<Rule>, la: set<Sym>, r: set<Sym>)
    requires forall x :: x in r <==> x.kind == Terminal && Leads(g, la, x)
    ensures forall x :: x in r ==> x.kind == Terminal
    ensures forall x :: x in la && x.kind == Terminal ==> x in r
  {
    forall x | x in la && x.kind == Terminal
      ensures x in r
    {
      LeadsStart(g, la, x);
    }
  }
}
