// The argument behind Hopcroft's algorithm, on values: a partition of the
// states as a class number per state, and for every class the highest symbol
// number already used to split with it.

module Splitters {
  import opened Nets
  import opened Nerode

  // Successors by dense symbol number.
  type Delta = map<(int, int), int>

  ghost predicate DeltaOK(d: Delta, n: nat) {
    forall k :: k in d ==> 0 <= k.0 < n && 0 <= k.1 && 0 <= d[k] < n
  }

  ghost function Succ(d: Delta, p: int, c: int): int {
    if (p, c) in d then d[(p, c)] else -1
  }

  // Class b still has to be used as a splitter for symbol c.
  ghost predicate Pending(thr: seq<int>, b: int, c: int) {
    0 <= b < |thr| && c > thr[b]
  }

  ghost predicate Agree(d: Delta, cls: seq<int>, thr: seq<int>, p: int, q: int, c: int)
    requires DeltaOK(d, |cls|)
  {
    var s, t := Succ(d, p, c), Succ(d, q, c);
    || (s == -1 && t == -1)
    || (s != -1 && t != -1 && cls[s] == cls[t])
    || (s != -1 && Pending(thr, cls[s], c))
    || (t != -1 && Pending(thr, cls[t], c))
  }

  ghost predicate ClassesOK(cls: seq<int>, blocks: nat) {
    forall p :: 0 <= p < |cls| ==> 0 <= cls[p] < blocks
  }

  // Two states of one class whose c-successors lie in different classes (or
  // of which one has no c-successor) are separated by a pending splitter.
  ghost predicate Separated(d: Delta, cls: seq<int>, thr: seq<int>) {
    && DeltaOK(d, |cls|)
    && ClassesOK(cls, |thr|)
    && forall p, q, c :: 0 <= p < |cls| && 0 <= q < |cls| && cls[p] == cls[q] && 0 <= c ==> Agree(d, cls, thr, p, q, c)
  }

  // X is the set of states with an a-successor in class w.
  ghost predicate IsPreimage(d: Delta, cls: seq<int>, w: int, a: int, X: set<int>) {
    forall p :: p in X <==> 0 <= p < |cls| && (p, a) in d && 0 <= d[(p, a)] < |cls| && cls[d[(p, a)]] == w
  }

  // Every class is cut into its part inside X and its part outside X; a part
  // inside X may move to a fresh class number.
  ghost predicate IsSplit(cls: seq<int>, blocks: nat, X: set<int>, cls': seq<int>) {
    && |cls'| == |cls|
    && (forall p :: 0 <= p < |cls| ==> cls'[p] == cls[p] || (p in X && blocks <= cls'[p]))
    && (forall p, q :: 0 <= p < |cls| && 0 <= q < |cls| ==>
          (cls'[p] == cls'[q] <==> cls[p] == cls[q] && (p in X <==> q in X)))
  }

  // Symbols strictly between thr[w] and c label no arc into class w.
  ghost predicate NothingBetween(d: Delta, cls: seq<int>, w: int, lo: int, c: int) {
    forall k :: k in d && 0 <= d[k] < |cls| && cls[d[k]] == w ==> k.1 <= lo || c <= k.1
  }

  lemma SkipSymbols(d: Delta, cls: seq<int>, thr: seq<int>, w: int, c: int)
    requires Separated(d, cls, thr)
    requires 0 <= w < |thr| && thr[w] < c
    requires NothingBetween(d, cls, w, thr[w], c)
    ensures Separated(d, cls, thr[w := c - 1])
  {
    var thr' := thr[w := c - 1];
    forall p, q, x | 0 <= p < |cls| && 0 <= q < |cls| && cls[p] == cls[q] && 0 <= x
      ensures Agree(d, cls, thr', p, q, x)
    {
      assert Agree(d, cls, thr, p, q, x);
      if (p, x) in d && cls[d[(p, x)]] == w {
        assert x <= thr[w] || c <= x;
      }
      if (q, x) in d && cls[d[(q, x)]] == w {
        assert x <= thr[w] || c <= x;
      }
    }
  }

  // Splitting every class by the a-preimage of w settles (w, a).  Fresh
  // classes start with every symbol pending; all others keep their bound.
  lemma SplitStep(d: Delta, cls: seq<int>, thr: seq<int>, w: int, a: int, X: set<int>, cls': seq<int>, thr': seq<int>)
    requires Separated(d, cls, thr)
    requires 0 <= w < |thr| && 0 <= a && thr[w] == a - 1
    requires IsPreimage(d, cls, w, a, X) && IsSplit(cls, |thr|, X, cls')
    requires |thr| <= |thr'| && thr'[w] == a && ClassesOK(cls', |thr'|)
    requires forall b :: 0 <= b < |thr| && b != w ==> thr'[b] == thr[b]
    requires forall b :: |thr| <= b < |thr'| ==> thr'[b] == -1
    ensures Separated(d, cls', thr')
  {
    forall p, q, c | 0 <= p < |cls| && 0 <= q < |cls| && cls'[p] == cls'[q] && 0 <= c
      ensures Agree(d, cls', thr', p, q, c)
    {
      assert cls[p] == cls[q] && (p in X <==> q in X);
      assert Agree(d, cls, thr, p, q, c);
      var s, t := Succ(d, p, c), Succ(d, q, c);
      if s != -1 && t != -1 && cls[s] == cls[t] {
        assert cls'[s] == cls'[t] || cls'[s] >= |thr| || cls'[t] >= |thr|;
      }
    }
  }

  // With no splitter pending the classes are a congruence.
  lemma NothingPending(d: Delta, cls: seq<int>, thr: seq<int>, p: int, q: int, c: int)
    requires Separated(d, cls, thr)
    requires 0 <= p < |cls| && 0 <= q < |cls| && cls[p] == cls[q]
    requires forall b, k :: 0 <= b < |thr| && k in d ==> k.1 <= thr[b]
    ensures (p, c) in d <==> (q, c) in d
    ensures (p, c) in d ==> cls[d[(p, c)]] == cls[d[(q, c)]]
  {
    if (p, c) in d || (q, c) in d {
      assert 0 <= c;
      assert Agree(d, cls, thr, p, q, c);
    }
  }

  // d is the successor function of m after numbering its letters.
  ghost predicate Encodes(m: Net, num: map<Letter, int>, d: Delta) {
    && DeltaOK(d, m.states)
    && (forall l, k :: l in num && k in num && num[l] == num[k] ==> l == k)
    && (forall l :: l in num ==> 0 <= num[l])
    && (forall p, l :: Next(m.arcs, p, l) == if l in num then Succ(d, p, num[l]) else -1)
    && (forall k :: k in d ==> exists l :: l in num && num[l] == k.1)
  }

  // Distinct classes are known to be inequivalent states.
  ghost predicate Justified(m: Net, cls: seq<int>) {
    |cls| == m.states && forall p, q :: 0 <= p < m.states && 0 <= q < m.states && cls[p] != cls[q] ==>
                                          Inequivalent(m, p, q)
  }

  // A state with an a-arc into w differs from a state without one.
  lemma SplitterSeparates(m: Net, num: map<Letter, int>, d: Delta, cls: seq<int>, w: int, a: int, X: set<int>, p: int,
                          q: int)
    requires Deterministic(m) && Trim(m) && Encodes(m, num, d) && Justified(m, cls)
    requires IsPreimage(d, cls, w, a, X)
    requires 0 <= p < m.states && 0 <= q < m.states && p in X && q !in X
    ensures Inequivalent(m, p, q)
  {
    assert (p, a) in d;
    var l :| l in num && num[l] == a;
    var s, t := Next(m.arcs, p, l), Next(m.arcs, q, l);
    assert s == d[(p, a)];
    if t == -1 {
      assert Productive(m, s);
      var v := ProductiveByWord(m, s);
      assert ([l] + v)[1..] == v;
      assert AcceptsFrom(m, p, [l] + v) && !AcceptsFrom(m, q, [l] + v);
    } else {
      assert t == d[(q, a)];
      assert Inequivalent(m, s, t);
      var v :| AcceptsFrom(m, s, v) != AcceptsFrom(m, t, v);
      assert ([l] + v)[1..] == v;
      assert AcceptsFrom(m, p, [l] + v) != AcceptsFrom(m, q, [l] + v);
    }
  }

  lemma InequivalentSymmetric(m: Net, p: int, q: int)
    requires Inequivalent(m, p, q)
    ensures Inequivalent(m, q, p)
  {
    var v :| AcceptsFrom(m, p, v) != AcceptsFrom(m, q, v);
    assert AcceptsFrom(m, q, v) != AcceptsFrom(m, p, v);
  }

  lemma SplitJustified(m: Net, num: map<Letter, int>, d: Delta, cls: seq<int>, w: int, a: int, X: set<int>,
                       cls': seq<int>, blocks: nat)
    requires Deterministic(m) && Trim(m) && Encodes(m, num, d) && Justified(m, cls)
    requires IsPreimage(d, cls, w, a, X) && IsSplit(cls, blocks, X, cls')
    ensures Justified(m, cls')
  {
    forall p, q | 0 <= p < m.states && 0 <= q < m.states && cls'[p] != cls'[q]
      ensures Inequivalent(m, p, q)
    {
      if cls[p] == cls[q] {
        if p in X {
          SplitterSeparates(m, num, d, cls, w, a, X, p, q);
        } else {
          SplitterSeparates(m, num, d, cls, w, a, X, q, p);
          InequivalentSymmetric(m, q, p);
        }
      }
    }
  }

  // Final and non-final states never share a class.
  ghost predicate FinalsAgree(m: Net, cls: seq<int>) {
    |cls| == m.states && forall p, q :: 0 <= p < m.states && 0 <= q < m.states && cls[p] == cls[q] ==>
      (p in m.finals <==> q in m.finals)
  }

  lemma SplitKeepsFinals(m: Net, cls: seq<int>, blocks: nat, X: set<int>, cls': seq<int>)
    requires FinalsAgree(m, cls) && IsSplit(cls, blocks, X, cls')
    ensures FinalsAgree(m, cls')
  {
  }

  // The first partition: final against non-final states.
  lemma FirstClasses(m: Net, d: Delta, cls: seq<int>, thr: seq<int>)
    requires |cls| == m.states && DeltaOK(d, m.states) && ClassesOK(cls, |thr|)
    requires forall p, q :: 0 <= p < m.states && 0 <= q < m.states ==>
               (cls[p] == cls[q] <==> (p in m.finals <==> q in m.finals))
    requires forall p :: 0 <= p < m.states ==> thr[cls[p]] == -1
    ensures Separated(d, cls, thr) && FinalsAgree(m, cls) && Justified(m, cls)
  {
    forall p, q, c | 0 <= p < |cls| && 0 <= q < |cls| && cls[p] == cls[q] && 0 <= c
      ensures Agree(d, cls, thr, p, q, c) {
      if (p, c) in d {
        assert Pending(thr, cls[d[(p, c)]], c);
      }
      if (q, c) in d {
        assert Pending(thr, cls[d[(q, c)]], c);
      }
    }
    forall p, q | 0 <= p < m.states && 0 <= q < m.states && cls[p] != cls[q] ensures Inequivalent(m, p, q) {
      assert AcceptsFrom(m, p, []) != AcceptsFrom(m, q, []);
    }
  }
}
