// struct trans_list and struct trans_array (minimize.c, determinize.c): the
// arcs at one state, sorted by symbol number, with a cursor (tail).

module Transitions {

  // A symbol number and the state at the other end of the arc.
  datatype Trans = Trans(sym: int, other: int)

  datatype TransArray = TransArray(transitions: seq<Trans>, tail: nat)

  ghost predicate SortedBySym(s: seq<Trans>) {
    forall i, j :: 0 <= i < j < |s| ==> s[i].sym <= s[j].sym
  }

  // qsort with trans_sort_cmp.
  function InsertSorted(x: Trans, s: seq<Trans>): (r: seq<Trans>)
    ensures multiset(r) == multiset(s) + multiset{x}
  {
    if s == [] then [x]
    else if x.sym <= s[0].sym then [x] + s
    else
      assert s == [s[0]] + s[1..];
      [s[0]] + InsertSorted(x, s[1..])
  }

  function Sorted(s: seq<Trans>): (r: seq<Trans>)
    ensures multiset(r) == multiset(s)
  {
    if s == [] then []
    else
      assert s == [s[0]] + s[1..];
      InsertSorted(s[0], Sorted(s[1..]))
  }

  lemma InsertMembers(x: Trans, s: seq<Trans>)
    ensures forall y :: y in InsertSorted(x, s) <==> y == x || y in s
  {
    forall y ensures y in InsertSorted(x, s) <==> y == x || y in s {
      assert y in InsertSorted(x, s) <==> y in multiset(InsertSorted(x, s));
      assert y in s <==> y in multiset(s);
    }
  }

  lemma {:induction false} InsertIsSorted(x: Trans, s: seq<Trans>)
    requires SortedBySym(s)
    ensures SortedBySym(InsertSorted(x, s))
    decreases s
  {
    if s != [] && x.sym > s[0].sym {
      InsertIsSorted(x, s[1..]);
      InsertMembers(x, s[1..]);
      var r := InsertSorted(x, s[1..]);
      forall j | 0 <= j < |r| ensures s[0].sym <= r[j].sym {
        assert r[j] in r;
      }
    }
  }

  lemma {:induction false} SortedIsSorted(s: seq<Trans>)
    ensures SortedBySym(Sorted(s))
    ensures forall x :: x in Sorted(s) <==> x in s
    decreases s
  {
    if s != [] {
      SortedIsSorted(s[1..]);
      InsertIsSorted(s[0], Sorted(s[1..]));
    }
    forall x ensures x in Sorted(s) <==> x in s {
      assert x in Sorted(s) <==> x in multiset(Sorted(s));
      assert x in s <==> x in multiset(s);
    }
  }

  ghost predicate DistinctSyms(s: seq<Trans>) {
    forall i, j :: 0 <= i < j < |s| ==> s[i].sym != s[j].sym
  }

  ghost predicate Lacks(s: seq<Trans>, c: int) {
    forall x :: x in s ==> x.sym != c
  }

  lemma DistinctCons(x: Trans, s: seq<Trans>)
    ensures DistinctSyms([x] + s) <==> DistinctSyms(s) && Lacks(s, x.sym)
  {
    var all := [x] + s;
    if DistinctSyms(all) {
      forall i, j | 0 <= i < j < |s| ensures s[i].sym != s[j].sym {
        assert all[i + 1] == s[i] && all[j + 1] == s[j];
      }
      forall y | y in s ensures y.sym != x.sym {
        var j :| 0 <= j < |s| && s[j] == y;
        assert all[0].sym != all[j + 1].sym;
      }
    }
  }

  lemma {:induction false} InsertDistinct(x: Trans, s: seq<Trans>)
    ensures DistinctSyms(InsertSorted(x, s)) <==> DistinctSyms([x] + s)
    decreases s
  {
    hide DistinctSyms;
    DistinctCons(x, s);
    if s != [] && x.sym > s[0].sym {
      InsertDistinct(x, s[1..]);
      InsertMembers(x, s[1..]);
      DistinctCons(x, s[1..]);
      DistinctCons(s[0], s[1..]);
      DistinctCons(s[0], InsertSorted(x, s[1..]));
      assert s == [s[0]] + s[1..];
    } else if s == [] {
      assert [x] + s == [x];
    }
  }

  // Sorting makes no two symbols equal.
  lemma {:induction false} SortedDistinct(s: seq<Trans>)
    ensures DistinctSyms(Sorted(s)) <==> DistinctSyms(s)
    decreases s
  {
    hide DistinctSyms;
    if s != [] {
      SortedDistinct(s[1..]);
      SortedIsSorted(s[1..]);
      InsertDistinct(s[0], Sorted(s[1..]));
      DistinctCons(s[0], Sorted(s[1..]));
      DistinctCons(s[0], s[1..]);
      assert s == [s[0]] + s[1..];
    }
  }

  // Everything before the cursor has a symbol up to lo, everything from it on
  // a symbol from hi.
  ghost predicate CursorAt(t: TransArray, lo: int, hi: int) {
    && t.tail <= |t.transitions|
    && (forall k :: 0 <= k < t.tail ==> t.transitions[k].sym <= lo)
    && (forall k :: t.tail <= k < |t.transitions| ==> t.transitions[k].sym >= hi)
  }

  lemma CursorInside(t: TransArray, lo: int, hi: int)
    requires CursorAt(t, lo, hi)
    ensures t.tail <= |t.transitions|
    ensures t.tail < |t.transitions| ==> t.transitions[t.tail].sym >= hi
  {
  }

  lemma CursorWeaken(t: TransArray, lo: int, hi: int, hi': int)
    requires CursorAt(t, lo, hi) && hi' <= hi
    ensures CursorAt(t, lo, hi')
  {
  }

  lemma FirstIsLeast(t: TransArray, c: int, hi: int)
    requires SortedBySym(t.transitions) && CursorAt(t, c, c + 1)
    requires t.tail < |t.transitions| ==> hi <= t.transitions[t.tail].sym
    ensures CursorAt(t, c, hi)
  {
    forall k | t.tail <= k < |t.transitions| ensures t.transitions[k].sym >= hi {
      assert t.transitions[t.tail].sym <= t.transitions[k].sym;
    }
  }

  ghost predicate AllSym(tr: seq<Trans>, from: nat, to: nat, c: int)
    requires to <= |tr|
  {
    forall k :: from <= k < to ==> tr[k].sym == c
  }

  ghost predicate OtherIn(tr: seq<Trans>, from: nat, to: nat, y: int)
    requires to <= |tr|
  {
    exists k :: from <= k < to && tr[k].other == y
  }

  lemma OtherInNext(tr: seq<Trans>, from: nat, k: nat, y: int)
    requires from <= k < |tr|
    ensures OtherIn(tr, from, k + 1, y) <==> OtherIn(tr, from, k, y) || y == tr[k].other
  {
    if OtherIn(tr, from, k, y) {
      var i :| from <= i < k && tr[i].other == y;
      assert from <= i < k + 1;
    }
  }

  // The entries at the cursor with the least symbol are all entries with it.
  lemma SymbolRun(tr: seq<Trans>, from: nat, to: nat, lo: int, c: int)
    requires SortedBySym(tr) && CursorAt(TransArray(tr, from), lo, c) && lo < c
    requires from <= to <= |tr| && AllSym(tr, from, to, c)
    requires to < |tr| ==> tr[to].sym != c
    ensures forall y :: OtherIn(tr, from, to, y) <==> Trans(c, y) in tr
    ensures CursorAt(TransArray(tr, to), c, c + 1)
  {
    forall y ensures OtherIn(tr, from, to, y) <==> Trans(c, y) in tr {
      if Trans(c, y) in tr {
        var k :| 0 <= k < |tr| && tr[k] == Trans(c, y);
        assert from <= k;
      }
      if OtherIn(tr, from, to, y) {
        var k :| from <= k < to && tr[k].other == y;
        assert tr[k] in tr && tr[k] == Trans(c, y);
      }
    }
    forall k | to <= k < |tr| ensures tr[k].sym >= c + 1 {
      assert tr[to].sym <= tr[k].sym;
    }
  }
}
