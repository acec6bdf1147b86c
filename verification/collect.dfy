/**
 * removeAndCollectClosures of the table generator (Peg/src/peg.cpp): merges items that share
 * a (rule, dot) core into one, keeping the first occurrence's position and the union of
 * all their lookaheads.  Nothing in the generator calls it: generateTables builds its sets
 * without this merge, and no other part of the model uses this module.
 */
module CollectClosures {
  import opened Grammar
  import opened Collections

  /** One step of the scan: every collected item with the core of `it` absorbs its
      lookaheads; if there is none, `it` is appended. */
  function CollectOne(acc: seq<Item>, it: Item): seq<Item> {
    if CoreOf(it) in Core(acc) then
      seq(|acc|, i requires 0 <= i < |acc| =>
        if CoreOf(acc[i]) == CoreOf(it) then acc[i].(lookahead := acc[i].lookahead + it.lookahead) else acc[i])
    else acc + [it]
  }

  function RemoveAndCollect(items: seq<Item>): seq<Item>
    decreases |items|
  {
    if items == [] then [] else CollectOne(RemoveAndCollect(items[..|items| - 1]), items[|items| - 1])
  }

  /** Core `c` occurs in `items` at position `a` and at no earlier position. */
  predicate FirstAt(items: seq<Item>, c: (Rule, nat), a: nat) {
    && a < |items|
    && CoreOf(items[a]) == c
    && forall b :: 0 <= b < a ==> CoreOf(items[b]) != c
  }

  /** Core `c` first occurs in `items` before any occurrence of core `d`. */
  ghost predicate Precedes(items: seq<Item>, c: (Rule, nat), d: (Rule, nat)) {
    exists a :: FirstAt(items, c, a) && forall b :: 0 <= b <= a ==> CoreOf(items[b]) != d
  }

  /** The lookahead symbols of all items of `items` with core `c`. */
  ghost predicate LookaheadOf(items: seq<Item>, c: (Rule, nat), x: Sym) {
    exists a :: 0 <= a < |items| && CoreOf(items[a]) == c && x in items[a].lookahead
  }

  /** The output has one item per core of the input. */
  lemma {:induction false} CollectCores(items: seq<Item>)
    ensures NoDup(Core(RemoveAndCollect(items)))
    ensures forall c :: c in Core(RemoveAndCollect(items)) <==> c in Core(items)
    decreases |items|
  {
    if items != [] {
      var front, it := items[..|items| - 1], items[|items| - 1];
      assert items == front + [it];
      CollectCores(front);
      var r0 := RemoveAndCollect(front);
      var r := RemoveAndCollect(items);
      var c := CoreOf(it);
      assert Core(items) == Core(front) + [c];
      if c in Core(r0) {
        assert Core(r) == Core(r0) by {
          forall i | 0 <= i < |r|
            ensures Core(r)[i] == Core(r0)[i]
          {
          }
        }
      } else {
        assert Core(r) == Core(r0) + [c];
      }
    }
  }

  /** The output keeps the order of first occurrence. */
  lemma {:induction false} CollectOrder(items: seq<Item>)
    ensures forall i, j :: 0 <= i < j < |RemoveAndCollect(items)| ==>
      Precedes(items, CoreOf(RemoveAndCollect(items)[i]), CoreOf(RemoveAndCollect(items)[j]))
    decreases |items|
  {
    if items != [] {
      var front, it := items[..|items| - 1], items[|items| - 1];
      assert items == front + [it];
      CollectOrder(front);
      CollectCores(front);
      var r0 := RemoveAndCollect(front);
      var r := RemoveAndCollect(items);
      if CoreOf(it) in Core(r0) {
        forall i, j | 0 <= i < j < |r|
          ensures Precedes(items, CoreOf(r[i]), CoreOf(r[j]))
        {
          assert CoreOf(r[i]) == CoreOf(r0[i]) && CoreOf(r[j]) == CoreOf(r0[j]);
          PrecedesExtend(front, it, CoreOf(r0[i]), CoreOf(r0[j]));
        }
      } else {
        assert r == r0 + [it];
        forall i, j | 0 <= i < j < |r|
          ensures Precedes(items, CoreOf(r[i]), CoreOf(r[j]))
        {
          if j < |r0| {
            PrecedesExtend(front, it, CoreOf(r0[i]), CoreOf(r0[j]));
          } else {
            assert Core(r0)[i] in Core(front);
            PrecedesNew(front, it, CoreOf(r0[i]));
          }
        }
      }
    }
  }

  /** Appending an item keeps the order of first occurrences already there. */
  lemma PrecedesExtend(front: seq<Item>, it: Item, c: (Rule, nat), d: (Rule, nat))
    requires Precedes(front, c, d)
    ensures Precedes(front + [it], c, d)
  {
    var a :| FirstAt(front, c, a) && forall b :: 0 <= b <= a ==> CoreOf(front[b]) != d;
    assert forall b :: 0 <= b < |front| ==> (front + [it])[b] == front[b];
    assert FirstAt(front + [it], c, a);
  }

  /** Every core already present comes before the core of an appended new item. */
  lemma PrecedesNew(front: seq<Item>, it: Item, c: (Rule, nat))
    requires c in Core(front) && CoreOf(it) !in Core(front)
    ensures Precedes(front + [it], c, CoreOf(it))
  {
    var items := front + [it];
    var a0 :| 0 <= a0 < |front| && Core(front)[a0] == c;
    var a := FirstOf(front, c, a0);
    assert forall b :: 0 <= b < |front| ==> items[b] == front[b];
    assert FirstAt(items, c, a);
    forall b | 0 <= b <= a
      ensures CoreOf(items[b]) != CoreOf(it)
    {
      assert Core(front)[b] == CoreOf(items[b]);
    }
  }

  /** Each output item's lookahead is the union of the lookaheads of every input item with
      its core. */
  lemma {:induction false} CollectLookaheads(items: seq<Item>)
    ensures forall i, x :: 0 <= i < |RemoveAndCollect(items)| ==>
      (x in RemoveAndCollect(items)[i].lookahead <==> LookaheadOf(items, CoreOf(RemoveAndCollect(items)[i]), x))
    decreases |items|
  {
    if items != [] {
      var front, it := items[..|items| - 1], items[|items| - 1];
      assert items == front + [it];
      CollectLookaheads(front);
      CollectCores(front);
      var r0 := RemoveAndCollect(front);
      var r := RemoveAndCollect(items);
      var c := CoreOf(it);
      assert forall a :: 0 <= a < |front| ==> items[a] == front[a];
      if c in Core(r0) {
        forall i, x | 0 <= i < |r|
          ensures x in r[i].lookahead <==> LookaheadOf(items, CoreOf(r[i]), x)
        {
          assert CoreOf(r[i]) == CoreOf(r0[i]);
          if LookaheadOf(items, CoreOf(r[i]), x) {
            var a :| 0 <= a < |items| && CoreOf(items[a]) == CoreOf(r[i]) && x in items[a].lookahead;
            if a < |front| {
              assert LookaheadOf(front, CoreOf(r0[i]), x);
            }
          }
          if x in r0[i].lookahead {
            var a :| 0 <= a < |front| && CoreOf(front[a]) == CoreOf(r0[i]) && x in front[a].lookahead;
            assert items[a] == front[a];
          }
          if CoreOf(r0[i]) == c && x in it.lookahead {
            assert items[|items| - 1] == it;
          }
        }
      } else {
        assert r == r0 + [it];
        assert forall b :: 0 <= b < |front| ==> CoreOf(items[b]) != c by {
          assert forall b :: 0 <= b < |front| ==> Core(front)[b] == CoreOf(items[b]);
        }
        forall i, x | 0 <= i < |r|
          ensures x in r[i].lookahead <==> LookaheadOf(items, CoreOf(r[i]), x)
        {
          if i < |r0| {
            assert CoreOf(r0[i]) != c by {
              assert Core(r0)[i] == CoreOf(r0[i]);
            }
            if LookaheadOf(items, CoreOf(r[i]), x) {
              var a :| 0 <= a < |items| && CoreOf(items[a]) == CoreOf(r[i]) && x in items[a].lookahead;
              assert a < |front|;
              assert LookaheadOf(front, CoreOf(r0[i]), x);
            }
            if x in r0[i].lookahead {
              var a :| 0 <= a < |front| && CoreOf(front[a]) == CoreOf(r0[i]) && x in front[a].lookahead;
              assert items[a] == front[a];
            }
          } else {
            assert items[|items| - 1] == it;
          }
        }
      }
    }
  }

  /** The earliest position at or before `a0` holding core `c`. */
  function FirstOf(items: seq<Item>, c: (Rule, nat), a0: nat): (a: nat)
    requires a0 < |items| && CoreOf(items[a0]) == c
    ensures a <= a0 && FirstAt(items, c, a)
    decreases a0
  {
    if exists b :: 0 <= b < a0 && CoreOf(items[b]) == c then
      var b :| 0 <= b < a0 && CoreOf(items[b]) == c;
      FirstOf(items, c, b)
    else a0
  }
}
