/**
 * Closure computation of the table generator (Peg/src/peg.cpp, generateClosures and
 * createItemSet).
 *
 * The source recurses with a memo of the rules already predicted ("alreadyHad"); an entry
 * of the memo is always an item with dot 0 and no lookahead, so it is identified by its
 * rule, and the memo is modelled as a sequence of rules.
 */
module Closure {
  import opened Grammar
  import opened Collections

  /** Item `x` predicts rule `r`: the nonterminal right after x's dot is r's lhs. */
  predicate Predicts(g: seq<Rule>, x: Item, r: Rule) {
    && !IsAtEnd(x)
    && DotSymbol(x).kind == Nonterminal
    && r.lhs == DotSymbol(x)
    && r in g
  }

  /** The item a prediction adds: dot 0, empty lookahead. */
  function Fresh(r: Rule): Item {
    Item(r, 0, {})
  }

  /** Grammar rules the memo does not hold yet; the walk's termination measure. */
  function Unvisited(g: seq<Rule>, had: seq<Rule>): set<Rule> {
    set r | r in g && r !in had
  }

  lemma UnvisitedShrinks(g: seq<Rule>, had: seq<Rule>, r: Rule, had2: seq<Rule>)
    requires r in g && r !in had
    requires had + [r] <= had2
    ensures |Unvisited(g, had2)| < |Unvisited(g, had)|
  {
    assert forall x :: x in had + [r] ==> x in had2 by {
      forall x | x in had + [r]
        ensures x in had2
      {
        var i :| 0 <= i < |had + [r]| && (had + [r])[i] == x;
        assert had2[i] == x;
      }
    }
    assert r in Unvisited(g, had) && r !in Unvisited(g, had2);
    StrictSubsetCardinality(Unvisited(g, had2), Unvisited(g, had));
  }

  /**
   * The closure walk.  For each item from index `k` whose dot stands before a nonterminal
   * N, and for each grammar rule from index `j` whose lhs is N and which the memo `had`
   * does not hold, the rule is memoised, its own closure is computed first, and the
   * closures collected so far become (closure of the rule) ++ (collected) ++ [rule].
   * Returns the collected rules and the final memo.
   */
  function Expand(g: seq<Rule>, items: seq<Item>, k: nat, j: nat, acc: seq<Rule>, had: seq<Rule>)
    : (res: (seq<Rule>, seq<Rule>))
    requires k <= |items| && j <= |g|
    ensures had <= res.1
    decreases |Unvisited(g, had)|, |items| - k, |g| - j
  {
    if k == |items| then (acc, had)
    else if IsAtEnd(items[k]) || DotSymbol(items[k]).kind != Nonterminal || j == |g| then
      Expand(g, items, k + 1, 0, acc, had)
    else if g[j].lhs == DotSymbol(items[k]) && g[j] !in had then
      var r := g[j];
      UnvisitedShrinks(g, had, r, had + [r]);
      var sub := Expand(g, [Fresh(r)], 0, 0, [], had + [r]);
      UnvisitedShrinks(g, had, r, sub.1);
      Expand(g, items, k, j + 1, sub.0 + acc + [r], sub.1)
    else
      Expand(g, items, k, j + 1, acc, had)
  }

  /** Rules the walk of `items` adds when it starts with an empty memo. */
  function ClosureRules(g: seq<Rule>, items: seq<Item>): seq<Rule> {
    Expand(g, items, 0, 0, [], []).0
  }

  /** The items the source's generateClosures returns for `items`: fresh predictions (dot
      0, no lookahead) of grammar rules, no rule twice, one per collected rule in order. */
  function GenerateClosures(g: seq<Rule>, items: seq<Item>): (c: seq<Item>)
    ensures |c| == |ClosureRules(g, items)|
    ensures forall i :: 0 <= i < |c| ==> c[i] == Fresh(ClosureRules(g, items)[i])
    ensures forall x :: x in c ==> x.dot == 0 && x.lookahead == {} && x.rule in g
    ensures NoDup(c)
  {
    var rules := ClosureRules(g, items);
    ClosureRulesOk(g, items);
    var c := seq(|rules|, i requires 0 <= i < |rules| => Fresh(rules[i]));
    assert forall x :: x in c ==> x.rule in rules;
    assert forall a, b :: 0 <= a < b < |c| ==> c[a].rule == rules[a] && c[b].rule == rules[b];
    c
  }

  /** The collected rules are grammar rules, each once. */
  lemma ClosureRulesOk(g: seq<Rule>, items: seq<Item>)
    ensures NoDup(ClosureRules(g, items))
    ensures forall r :: r in ClosureRules(g, items) ==> r in g
  {
    ClosureRulesAreMemo(g, items);
    ExpandSound(g, items, 0, 0, [], []);
    var cl, h := ClosureRules(g, items), Memo(g, items);
    forall r | r in cl
      ensures r in g
    {
      var i :| 0 <= i < |h| && h[i] == r;
    }
  }

  /** The walk's bookkeeping: the memo and the collected rules stay duplicate-free, and the
      collected rules are the accumulator plus exactly the rules newly memoised. */
  ghost predicate MemoOk(acc: seq<Rule>, had: seq<Rule>, cl: seq<Rule>, h: seq<Rule>) {
    && NoDup(h)
    && NoDup(cl)
    && (forall r :: r in cl <==> r in acc || (r in h && r !in had))
  }

  /** Every rule predicted by a remaining item, or by a newly memoised rule, is memoised. */
  ghost predicate CompleteFrom(g: seq<Rule>, items: seq<Item>, k: nat, j: nat, had: seq<Rule>, h: seq<Rule>) {
    && (k < |items| ==>
          forall jj :: j <= jj < |g| && Predicts(g, items[k], g[jj]) ==> g[jj] in h)
    && (forall kk, r :: k < kk < |items| && Predicts(g, items[kk], r) ==> r in h)
    && (forall i, r :: |had| <= i < |h| && Predicts(g, Fresh(h[i]), r) ==> r in h)
  }

  /** Every newly memoised rule is predicted by a remaining item or by an earlier entry. */
  ghost predicate SoundFrom(g: seq<Rule>, items: seq<Item>, k: nat, had: seq<Rule>, h: seq<Rule>) {
    forall i :: |had| <= i < |h| ==>
      && h[i] in g
      && ((exists kk :: k <= kk < |items| && Predicts(g, items[kk], h[i]))
          || (exists i' :: 0 <= i' < i && Predicts(g, Fresh(h[i']), h[i])))
  }

  lemma PrefixMembers(a: seq<Rule>, b: seq<Rule>)
    requires a <= b
    ensures forall x :: x in a ==> x in b
  {
    forall x | x in a
      ensures x in b
    {
      var i :| 0 <= i < |a| && a[i] == x;
      assert b[i] == x;
    }
  }

  lemma {:induction false} ExpandMemo(g: seq<Rule>, items: seq<Item>, k: nat, j: nat, acc: seq<Rule>, had: seq<Rule>)
    requires k <= |items| && j <= |g|
    requires NoDup(had) && NoDup(acc)
    requires forall r :: r in acc ==> r in had
    ensures MemoOk(acc, had, Expand(g, items, k, j, acc, had).0, Expand(g, items, k, j, acc, had).1)
    decreases |Unvisited(g, had)|, |items| - k, |g| - j
  {
    if k == |items| {
    } else if IsAtEnd(items[k]) || DotSymbol(items[k]).kind != Nonterminal || j == |g| {
      ExpandMemo(g, items, k + 1, 0, acc, had);
    } else if g[j].lhs == DotSymbol(items[k]) && g[j] !in had {
      var r := g[j];
      UnvisitedShrinks(g, had, r, had + [r]);
      var (cl1, h1) := Expand(g, [Fresh(r)], 0, 0, [], had + [r]);
      UnvisitedShrinks(g, had, r, h1);
      assert NoDup(had + [r]);
      ExpandMemo(g, [Fresh(r)], 0, 0, [], had + [r]);
      PrefixMembers(had + [r], h1);
      var acc' := cl1 + acc + [r];
      assert NoDup(acc') by {
        forall a, b | 0 <= a < b < |acc'|
          ensures acc'[a] != acc'[b]
        {
          if b < |cl1| {
          } else if a < |cl1| {
            assert acc'[a] in cl1;
            if b < |cl1| + |acc| {
              assert acc'[b] in acc;
            } else {
              assert acc'[b] == r;
            }
          } else if b < |cl1| + |acc| {
            assert acc'[a] == acc[a - |cl1|] && acc'[b] == acc[b - |cl1|];
          } else {
            assert acc'[a] in acc;
          }
        }
      }
      ExpandMemo(g, items, k, j + 1, acc', h1);
      var (cl, h) := Expand(g, items, k, j + 1, acc', h1);
      assert Expand(g, items, k, j, acc, had) == (cl, h);
      PrefixMembers(h1, h);
      forall x
        ensures x in cl <==> x in acc || (x in h && x !in had)
      {
        if x in cl1 {
          assert x in h1 && x !in had + [r];
        }
      }
    } else {
      ExpandMemo(g, items, k, j + 1, acc, had);
    }
  }

  lemma {:induction false} ExpandComplete(g: seq<Rule>, items: seq<Item>, k: nat, j: nat, acc: seq<Rule>, had: seq<Rule>)
    requires k <= |items| && j <= |g|
    ensures CompleteFrom(g, items, k, j, had, Expand(g, items, k, j, acc, had).1)
    decreases |Unvisited(g, had)|, |items| - k, |g| - j
  {
    if k == |items| {
    } else if IsAtEnd(items[k]) || DotSymbol(items[k]).kind != Nonterminal || j == |g| {
      ExpandComplete(g, items, k + 1, 0, acc, had);
      CompleteSkipItem(g, items, k, j, had, Expand(g, items, k, j, acc, had).1);
    } else if g[j].lhs == DotSymbol(items[k]) && g[j] !in had {
      var r := g[j];
      UnvisitedShrinks(g, had, r, had + [r]);
      var (cl1, h1) := Expand(g, [Fresh(r)], 0, 0, [], had + [r]);
      UnvisitedShrinks(g, had, r, h1);
      ExpandComplete(g, [Fresh(r)], 0, 0, [], had + [r]);
      var acc' := cl1 + acc + [r];
      ExpandComplete(g, items, k, j + 1, acc', h1);
      var h := Expand(g, items, k, j + 1, acc', h1).1;
      assert Expand(g, items, k, j, acc, had).1 == h;
      CompleteJoin(g, items, k, j, had, h1, h);
    } else {
      ExpandComplete(g, items, k, j + 1, acc, had);
      var h := Expand(g, items, k, j, acc, had).1;
      PrefixMembers(had, h);
      CompleteSkipRule(g, items, k, j, had, h);
    }
  }

  /** An item that predicts nothing further (or whose rules are all scanned) adds nothing
      to complete. */
  lemma CompleteSkipItem(g: seq<Rule>, items: seq<Item>, k: nat, j: nat, had: seq<Rule>, h: seq<Rule>)
    requires k < |items| && j <= |g|
    requires IsAtEnd(items[k]) || DotSymbol(items[k]).kind != Nonterminal || j == |g|
    requires CompleteFrom(g, items, k + 1, 0, had, h)
    ensures CompleteFrom(g, items, k, j, had, h)
  {
  }

  /** A rule that the item does not predict, or that is already memoised, adds nothing to
      complete. */
  lemma CompleteSkipRule(g: seq<Rule>, items: seq<Item>, k: nat, j: nat, had: seq<Rule>, h: seq<Rule>)
    requires k < |items| && j < |g|
    requires !Predicts(g, items[k], g[j]) || g[j] in h
    requires CompleteFrom(g, items, k, j + 1, had, h)
    ensures CompleteFrom(g, items, k, j, had, h)
  {
  }

  /** Expanding the predicted rule `g[j]` first (memo `had` grows to `h1`) and then the rest
      of the scan (to `h`) leaves nothing predicted outside `h`. */
  lemma CompleteJoin(g: seq<Rule>, items: seq<Item>, k: nat, j: nat, had: seq<Rule>, h1: seq<Rule>, h: seq<Rule>)
    requires k < |items| && j < |g| && Predicts(g, items[k], g[j])
    requires had + [g[j]] <= h1 <= h
    requires CompleteFrom(g, [Fresh(g[j])], 0, 0, had + [g[j]], h1)
    requires CompleteFrom(g, items, k, j + 1, h1, h)
    ensures CompleteFrom(g, items, k, j, had, h)
  {
    var r := g[j];
    PrefixMembers(had + [r], h1);
    PrefixMembers(h1, h);
    forall i, r' | |had| <= i < |h| && Predicts(g, Fresh(h[i]), r')
      ensures r' in h
    {
      if i < |h1| {
        assert h[i] == h1[i];
        if i == |had| {
          assert h1[i] == r;
          assert Predicts(g, [Fresh(r)][0], r');
        }
      }
    }
  }

  lemma {:induction false} ExpandSound(g: seq<Rule>, items: seq<Item>, k: nat, j: nat, acc: seq<Rule>, had: seq<Rule>)
    requires k <= |items| && j <= |g|
    ensures SoundFrom(g, items, k, had, Expand(g, items, k, j, acc, had).1)
    decreases |Unvisited(g, had)|, |items| - k, |g| - j
  {
    if k == |items| {
    } else if IsAtEnd(items[k]) || DotSymbol(items[k]).kind != Nonterminal || j == |g| {
      ExpandSound(g, items, k + 1, 0, acc, had);
    } else if g[j].lhs == DotSymbol(items[k]) && g[j] !in had {
      var r := g[j];
      UnvisitedShrinks(g, had, r, had + [r]);
      var (cl1, h1) := Expand(g, [Fresh(r)], 0, 0, [], had + [r]);
      UnvisitedShrinks(g, had, r, h1);
      ExpandSound(g, [Fresh(r)], 0, 0, [], had + [r]);
      var acc' := cl1 + acc + [r];
      ExpandSound(g, items, k, j + 1, acc', h1);
      var h := Expand(g, items, k, j + 1, acc', h1).1;
      assert Expand(g, items, k, j, acc, had).1 == h;
      forall i | |had| <= i < |h|
        ensures h[i] in g
        ensures (exists kk :: k <= kk < |items| && Predicts(g, items[kk], h[i]))
                || (exists i' :: 0 <= i' < i && Predicts(g, Fresh(h[i']), h[i]))
      {
        if i < |h1| {
          assert h[i] == h1[i];
          if i == |had| {
            assert h1[i] == r;
            assert Predicts(g, items[k], h[i]);
          } else if exists kk :: 0 <= kk < 1 && Predicts(g, [Fresh(r)][kk], h1[i]) {
            assert h[|had|] == h1[|had|] == r;
            assert Predicts(g, Fresh(h[|had|]), h[i]);
          } else {
            var i' :| 0 <= i' < i && Predicts(g, Fresh(h1[i']), h1[i]);
            assert h[i'] == h1[i'];
          }
        }
      }
    } else {
      ExpandSound(g, items, k, j + 1, acc, had);
    }
  }

  /** `order` lists rules so that each is predicted by a kernel item or by an earlier one. */
  predicate DerivationOrder(g: seq<Rule>, kernel: seq<Item>, order: seq<Rule>) {
    forall i :: 0 <= i < |order| ==>
      (exists kk :: 0 <= kk < |kernel| && Predicts(g, kernel[kk], order[i]))
      || (exists i' :: 0 <= i' < i && Predicts(g, Fresh(order[i']), order[i]))
  }

  lemma FreshInClosure(g: seq<Rule>, kernel: seq<Item>, r: Rule)
    ensures Fresh(r) in GenerateClosures(g, kernel) <==> r in ClosureRules(g, kernel)
  {
    var c, cl := GenerateClosures(g, kernel), ClosureRules(g, kernel);
    if Fresh(r) in c {
      var i :| 0 <= i < |c| && c[i] == Fresh(r);
      assert cl[i] == r;
    }
    if r in cl {
      var i :| 0 <= i < |cl| && cl[i] == r;
      assert c[i] == Fresh(r);
    }
  }

  /** The memo of the top-level walk. */
  function Memo(g: seq<Rule>, kernel: seq<Item>): seq<Rule> {
    Expand(g, kernel, 0, 0, [], []).1
  }

  /** The closure's rules are exactly the memoised rules, each once. */
  lemma ClosureRulesAreMemo(g: seq<Rule>, kernel: seq<Item>)
    ensures NoDup(ClosureRules(g, kernel))
    ensures forall r :: r in ClosureRules(g, kernel) <==> r in Memo(g, kernel)
  {
    ExpandMemo(g, kernel, 0, 0, [], []);
  }

  /** The result is closed: every rule predicted by a kernel item or by an added item has
      been added. */
  lemma ClosureIsClosed(g: seq<Rule>, kernel: seq<Item>)
    ensures forall x, r :: x in kernel && Predicts(g, x, r) ==> Fresh(r) in GenerateClosures(g, kernel)
    ensures forall x, r :: x in GenerateClosures(g, kernel) && Predicts(g, x, r) ==>
      Fresh(r) in GenerateClosures(g, kernel)
  {
    ClosureRulesAreMemo(g, kernel);
    ExpandComplete(g, kernel, 0, 0, [], []);
    var cl, h := ClosureRules(g, kernel), Memo(g, kernel);
    assert CompleteFrom(g, kernel, 0, 0, [], h);
    var c := GenerateClosures(g, kernel);
    forall x, r | x in kernel && Predicts(g, x, r)
      ensures Fresh(r) in c
    {
      var kk :| 0 <= kk < |kernel| && kernel[kk] == x;
      if kk == 0 {
        var jj :| 0 <= jj < |g| && g[jj] == r;
        assert r in h;
      } else {
        assert r in h;
      }
      FreshInClosure(g, kernel, r);
    }
    forall x, r | x in c && Predicts(g, x, r)
      ensures Fresh(r) in c
    {
      var i :| 0 <= i < |c| && c[i] == x;
      assert x == Fresh(cl[i]);
      assert cl[i] in cl;
      var i2 :| 0 <= i2 < |h| && h[i2] == cl[i];
      assert Predicts(g, Fresh(h[i2]), r);
      assert r in h;
      FreshInClosure(g, kernel, r);
    }
  }

  /** The added rules can be listed so that each is predicted by a kernel item or by a
      rule listed before it: nothing is added without a reason. */
  lemma ClosureIsDerived(g: seq<Rule>, kernel: seq<Item>)
    ensures exists order :: (DerivationOrder(g, kernel, order)
      && forall r :: r in order <==> Fresh(r) in GenerateClosures(g, kernel))
  {
    ClosureRulesAreMemo(g, kernel);
    ExpandSound(g, kernel, 0, 0, [], []);
    var h := Memo(g, kernel);
    assert SoundFrom(g, kernel, 0, [], h);
    forall r
      ensures r in h <==> Fresh(r) in GenerateClosures(g, kernel)
    {
      FreshInClosure(g, kernel, r);
    }
    assert DerivationOrder(g, kernel, h);
  }
}
