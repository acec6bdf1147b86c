/** Failure-compatible result types shared by every component. */
module Wrappers {

  datatype Option<+T> = None | Some(value: T) {
    predicate IsFailure() { None? }

    function PropagateFailure<U>(): Option<U>
      requires None?
    {
      None
    }

    function Extract(): T
      requires Some?
    {
      value
    }
  }

  /** A computation's value, or the error that ended it. */
  datatype Result<+T, +E> = Ok(value: T) | Err(error: E) {
    predicate IsFailure() { Err? }

    function PropagateFailure<U>(): Result<U, E>
      requires Err?
    {
      Err(error)
    }

    function Extract(): T
      requires Ok?
    {
      value
    }
  }
}

/** Small facts about sequences and sets used by the termination arguments. */
module Collections {

  /** No element occurs twice. */
  predicate NoDup<T(==)>(s: seq<T>) {
    forall i, j :: 0 <= i < j < |s| ==> s[i] != s[j]
  }

  function Reverse<T>(s: seq<T>): (r: seq<T>)
    ensures |r| == |s|
    ensures forall i :: 0 <= i < |s| ==> r[i] == s[|s| - 1 - i]
  {
    if s == [] then [] else Reverse(s[1..]) + [s[0]]
  }

  lemma {:induction false} ReverseAppend<T>(a: seq<T>, b: seq<T>)
    ensures Reverse(a + b) == Reverse(b) + Reverse(a)
  {
    var l, r := Reverse(a + b), Reverse(b) + Reverse(a);
    assert |l| == |r|;
    forall i | 0 <= i < |l|
      ensures l[i] == r[i]
    {
      if i < |b| {
        assert r[i] == Reverse(b)[i];
      } else {
        assert r[i] == Reverse(a)[i - |b|];
      }
    }
  }

  lemma ReverseReverse<T>(s: seq<T>)
    ensures Reverse(Reverse(s)) == s
  {
    var r := Reverse(Reverse(s));
    assert forall i :: 0 <= i < |s| ==> r[i] == s[i];
  }

  lemma {:induction false} SubsetCardinality<T>(a: set<T>, b: set<T>)
    requires a <= b
    ensures |a| <= |b|
  {
    assert b == a + (b - a);
  }

  lemma {:induction false} StrictSubsetCardinality<T>(a: set<T>, b: set<T>)
    requires a < b
    ensures |a| < |b|
  {
    assert b == a + (b - a);
    var x :| x in b && x !in a;
    assert x in b - a;
  }

  /** A duplicate-free sequence has as many distinct elements as positions. */
  lemma {:induction false} NoDupCardinality<T>(s: seq<T>)
    requires NoDup(s)
    ensures |set x | x in s| == |s|
  {
    if s != [] {
      var t := s[..|s| - 1];
      assert NoDup(t);
      NoDupCardinality(t);
      var last := s[|s| - 1];
      assert (set x | x in s) == (set x | x in t) + {last};
      assert last !in (set x | x in t);
    }
  }

  /** A duplicate-free sequence over `u` is no longer than `u` is large. */
  lemma NoDupLength<T>(s: seq<T>, u: set<T>)
    requires NoDup(s)
    requires forall x :: x in s ==> x in u
    ensures |s| <= |u|
  {
    NoDupCardinality(s);
    SubsetCardinality((set x | x in s), u);
  }

  /** Every sequence over `u` of length at most `n`. */
  function Words<T>(u: set<T>, n: nat): set<seq<T>>
  {
    if n == 0 then {[]}
    else Words(u, n - 1) + (set w, x | w in Words(u, n - 1) && x in u :: w + [x])
  }

  lemma {:induction false} WordsContains<T>(u: set<T>, n: nat, w: seq<T>)
    requires |w| <= n
    requires forall x :: x in w ==> x in u
    ensures w in Words(u, n)
  {
    if n > 0 {
      if |w| <= n - 1 {
        WordsContains(u, n - 1, w);
      } else {
        var front := w[..|w| - 1];
        WordsContains(u, n - 1, front);
        assert w == front + [w[|w| - 1]];
      }
    }
  }

  /** `a` can be obtained from `b` by deleting elements. */
  predicate SubSeq<T(==)>(a: seq<T>, b: seq<T>)
    decreases |b|
  {
    if a == [] then true
    else if b == [] then false
    else (a[|a| - 1] == b[|b| - 1] && SubSeq(a[..|a| - 1], b[..|b| - 1])) || SubSeq(a, b[..|b| - 1])
  }

  lemma SubSeqExtend<T>(a: seq<T>, b: seq<T>, x: T)
    requires SubSeq(a, b)
    ensures SubSeq(a, b + [x]) && SubSeq(a + [x], b + [x])
  {
    assert (b + [x])[..|b|] == b;
    assert (a + [x])[..|a|] == a;
  }

  lemma {:induction false} SubSeqPrefix<T>(a: seq<T>, b: seq<T>, k: nat)
    requires k <= |b| && SubSeq(a, b[..k])
    ensures SubSeq(a, b)
    decreases |b| - k
  {
    if k < |b| {
      assert b[..k + 1] == b[..k] + [b[k]];
      SubSeqExtend(a, b[..k], b[k]);
      SubSeqPrefix(a, b, k + 1);
    } else {
      assert b[..k] == b;
    }
  }

  lemma {:induction false} SubSeqSuffix<T>(a: seq<T>, b: seq<T>)
    ensures SubSeq(b, a + b)
    decreases |b|
  {
    if b != [] {
      var b' := b[..|b| - 1];
      SubSeqSuffix(a, b');
      assert (a + b)[..|a + b| - 1] == a + b';
    }
  }

  lemma {:induction false} SubSeqTrans<T>(a: seq<T>, b: seq<T>, c: seq<T>)
    requires SubSeq(a, b) && SubSeq(b, c)
    ensures SubSeq(a, c)
    decreases |c|
  {
    if a != [] {
      assert b != [] && c != [];
      var c' := c[..|c| - 1];
      if b[|b| - 1] == c[|c| - 1] && SubSeq(b[..|b| - 1], c') {
        if a[|a| - 1] == b[|b| - 1] && SubSeq(a[..|a| - 1], b[..|b| - 1]) {
          SubSeqTrans(a[..|a| - 1], b[..|b| - 1], c');
        } else {
          SubSeqTrans(a, b[..|b| - 1], c');
        }
      } else {
        SubSeqTrans(a, b, c');
      }
    }
  }
}
