// fsm_subset (determinize.c) with SUBSET_DETERMINIZE.

module Determinize {
  import opened Nets
  import opened Counting
  import opened Symbols
  import opened Transitions
  import opened Widths
  import opened Powerset
  import opened Closure
  import opened Interning
  import opened SubsetTables
  import opened Builder
  import Order
  import Pointers

  // ---- The net found so far ----

  ghost function SetsOf(contents: seq<seq<int>>): (r: seq<set<int>>)
    ensures |r| == |contents| && forall i :: 0 <= i < |contents| ==> r[i] == Elements(contents[i])
  {
    seq(|contents|, i requires 0 <= i < |contents| => Elements(contents[i]))
  }

  ghost predicate ArcOK(m: Net, sets: seq<set<int>>, a: Arc) {
    && 0 <= a.src < |sets| && 0 <= a.dst < |sets| && a.letter != EPS
    && Step(m, sets[a.src], a.letter) != {} && sets[a.dst] == EClose(m, Step(m, sets[a.src], a.letter))
  }

  ghost predicate Complete(m: Net, sets: seq<set<int>>, arcs: set<Arc>, T: int, l: Letter)
    requires 0 <= T < |sets|
  {
    l != EPS && Step(m, sets[T], l) != {} ==> exists U :: Arc(T, l, U) in arcs
  }

  // The arcs found so far; the states in done have all of theirs.
  ghost predicate Explored(m: Net, sets: seq<set<int>>, arcs: set<Arc>, done: set<int>) {
    && |sets| > 0 && sets[0] == EClose(m, m.starts)
    && (forall i, j :: 0 <= i < j < |sets| ==> sets[i] != sets[j])
    && (forall a :: a in arcs ==> ArcOK(m, sets, a))
    && (forall T :: T in done ==> 0 <= T < |sets| && forall l :: Complete(m, sets, arcs, T, l))
    && (forall T :: 0 <= T < |sets| ==> Reaches(arcs, 0, T))
  }

  // The symbols below upto are done for T.
  ghost predicate RowDone(m: Net, sets: seq<set<int>>, arcs: set<Arc>, T: int, pairs: seq<Letter>, upto: int) {
    0 <= T < |sets| && forall s :: 0 <= s < |pairs| && s < upto ==> Complete(m, sets, arcs, T, pairs[s])
  }

  lemma FirstSet(m: Net, s: set<int>)
    requires s == EClose(m, m.starts)
    ensures Explored(m, [s], {}, {})
  {
    assert Path({}, 0, [], 0);
  }

  // A new arc, possibly into a new set.
  lemma AddedArc(m: Net, sets: seq<set<int>>, arcs: set<Arc>, done: set<int>, sets': seq<set<int>>, a: Arc)
    requires Explored(m, sets, arcs, done)
    requires 0 <= a.src < |sets| && ArcOK(m, sets', a)
    requires sets' == sets || (sets' == sets + [EClose(m, Step(m, sets[a.src], a.letter))] && sets'[|sets|] !in sets
                               && a.dst == |sets|)
    ensures Explored(m, sets', arcs + {a}, done)
  {
    hide Step, EClose;
    var arcs' := arcs + {a};
    forall T | 0 <= T < |sets'| ensures Reaches(arcs', 0, T) {
      if T < |sets| {
        ReachesGrows(arcs, arcs', 0, T);
      } else {
        ReachesGrows(arcs, arcs', 0, a.src);
        ReachesSnoc(arcs', 0, a);
      }
    }
    forall T, l | T in done ensures 0 <= T < |sets'| && Complete(m, sets', arcs', T, l) {
      assert Complete(m, sets, arcs, T, l);
    }
    forall b | b in arcs ensures ArcOK(m, sets', b) {
      assert ArcOK(m, sets, b);
    }
  }

  lemma RowGrows(m: Net, sets: seq<set<int>>, arcs: set<Arc>, T: int, pairs: seq<Letter>, lo: int, sets': seq<set<int>>,
                 a: Arc, c: int, hi: int)
    requires RowDone(m, sets, arcs, T, pairs, lo) && sets <= sets'
    requires 0 <= c < |pairs| && a.src == T && a.letter == pairs[c]
    requires forall s :: 0 <= s < |pairs| && lo <= s < hi && s != c && pairs[s] != EPS ==>
                           Step(m, sets[T], pairs[s]) == {}
    ensures RowDone(m, sets', arcs + {a}, T, pairs, hi)
  {
    hide Step, EClose;
    forall s | 0 <= s < |pairs| && s < hi ensures Complete(m, sets', arcs + {a}, T, pairs[s]) {
      if s < lo {
        assert Complete(m, sets, arcs, T, pairs[s]);
      } else if s == c {
        assert Arc(T, pairs[c], a.dst) == a;
        assert a in arcs + {a};
      }
    }
  }

  lemma RowStart(m: Net, sets: seq<set<int>>, arcs: set<Arc>, T: int, pairs: seq<Letter>, hi: int)
    requires 0 <= T < |sets|
    requires forall s :: 0 <= s < |pairs| && -1 < s < hi && pairs[s] != EPS ==> Step(m, sets[T], pairs[s]) == {}
    ensures RowDone(m, sets, arcs, T, pairs, hi)
  {
    hide Step;
  }

  // All symbols are done, so all letters are.
  lemma RowFull(m: Net, sets: seq<set<int>>, arcs: set<Arc>, done: set<int>, T: int, pairs: seq<Letter>, upto: int)
    requires Explored(m, sets, arcs, done) && RowDone(m, sets, arcs, T, pairs, upto) && |pairs| <= upto
    requires forall a :: a in m.arcs ==> a.letter in pairs
    ensures Explored(m, sets, arcs, done + {T})
  {
    hide EClose;
    forall l ensures Complete(m, sets, arcs, T, l) {
      if l in pairs {
        var s :| 0 <= s < |pairs| && pairs[s] == l;
        assert Complete(m, sets, arcs, T, pairs[s]);
      } else {
        assert Step(m, sets[T], l) == {};
      }
    }
  }

  // Everything is explored: the powerset net.
  lemma ExploredAll(m: Net, sets: seq<set<int>>, k: Net)
    requires Closed(m) && Explored(m, sets, k.arcs, Below(|sets|)) && k.states == |sets| && k.starts == {0}
    requires forall T :: T in k.finals <==> 0 <= T < |sets| && sets[T] * m.finals != {}
    ensures IsPowerset(m, k, sets) && forall T :: 0 <= T < k.states ==> Reachable(k, T)
  {
    hide Step, EClose;
    forall a, b | a in k.arcs && b in k.arcs && a.src == b.src && a.letter == b.letter ensures a.dst == b.dst {
      assert ArcOK(m, sets, a) && ArcOK(m, sets, b);
    }
    forall a | a in k.arcs ensures 0 <= a.src < k.states && 0 <= a.dst < k.states && a.letter != EPS {
      assert ArcOK(m, sets, a);
    }
    forall T, l | 0 <= T < |sets| && l != EPS ensures StepsTo(m, k, sets, T, l) {
      var U := Next(k.arcs, T, l);
      assert T in Below(|sets|);
      assert Complete(m, sets, k.arcs, T, l);
      forall V | Arc(T, l, V) in k.arcs ensures ArcOK(m, sets, Arc(T, l, V)) {
      }
    }
    forall T | 0 <= T < k.states ensures Reachable(k, T) {
      assert 0 in k.starts && Reaches(k.arcs, 0, T);
    }
  }

  // ---- There are only so many sets ----

  ghost function WithAll(all: set<set<int>>, x: int): set<set<int>> {
    set s | s in all :: s + {x}
  }

  ghost function Subsets(n: nat): set<set<int>> {
    if n == 0 then {{}} else Subsets(n - 1) + WithAll(Subsets(n - 1), n - 1)
  }

  lemma {:induction false} AllSubsets(n: nat, s: set<int>)
    requires s <= Below(n)
    ensures s in Subsets(n)
    decreases n
  {
    if n == 0 {
      assert s == {};
    } else {
      AllSubsets(n - 1, s - {n - 1});
      if n - 1 in s {
        assert s == (s - {n - 1}) + {n - 1};
      } else {
        assert s == s - {n - 1};
      }
    }
  }

  lemma SetsBound(sets: seq<set<int>>, n: nat)
    requires forall i, j :: 0 <= i < j < |sets| ==> sets[i] != sets[j]
    requires forall i :: 0 <= i < |sets| ==> sets[i] <= Below(n)
    ensures |sets| <= |Subsets(n)|
  {
    NoDupSize(sets);
    forall s | s in Elements(sets) ensures s in Subsets(n) {
      AllSubsets(n, s);
    }
    SubsetSize(Elements(sets), Subsets(n));
  }

  // ---- The working tables ----

  lemma RowAt(trans: seq<TransArray>, m: Net, pairs: seq<Letter>, x: int)
    requires TransOK(trans, m, pairs) && 0 <= x < m.states
    ensures |trans| == m.states && SortedBySym(trans[x].transitions)
    ensures forall k :: 0 <= k < |trans[x].transitions| ==> 0 <= trans[x].transitions[k].sym < |pairs|
                                                            && pairs[trans[x].transitions[k].sym] != EPS
    ensures forall c, y :: Trans(c, y) in trans[x].transitions <==> 0 <= c < |pairs| && pairs[c] != EPS
                                                                    && Arc(x, pairs[c], y) in m.arcs
  {
    var tr := trans[x].transitions;
    assert Outgoing(tr, m, pairs, x);
    forall k | 0 <= k < |tr| ensures 0 <= tr[k].sym < |pairs| && pairs[tr[k].sym] != EPS {
      assert tr[k] in tr;
    }
  }

  lemma OnlyTails(trans: seq<TransArray>, trans': seq<TransArray>, m: Net, pairs: seq<Letter>)
    requires TransOK(trans, m, pairs) && |trans'| == |trans|
    requires forall q :: 0 <= q < |trans| ==> trans'[q].transitions == trans[q].transitions
    ensures TransOK(trans', m, pairs)
  {
    hide SortedBySym, Outgoing;
  }

  // The cursors of the states in set stand between lo and hi.
  ghost predicate CursorsAt(trans: seq<TransArray>, set0: seq<int>, lo: int, hi: int) {
    forall i :: 0 <= i < |set0| ==> 0 <= set0[i] < |trans| && CursorAt(trans[set0[i]], lo, hi)
  }

  // Nothing is labelled between lo and hi.
  lemma CursorGap(trans: seq<TransArray>, m: Net, pairs: seq<Letter>, list: seq<int>, lo: int, hi: int)
    requires Closed(m) && TransOK(trans, m, pairs) && CursorsAt(trans, list, lo, hi)
    ensures forall s :: 0 <= s < |pairs| && lo < s < hi && pairs[s] != EPS ==> Step(m, Elements(list), pairs[s]) == {}
  {
    forall s | 0 <= s < |pairs| && lo < s < hi && pairs[s] != EPS ensures Step(m, Elements(list), pairs[s]) == {} {
      if Step(m, Elements(list), pairs[s]) != {} {
        var y :| y in Step(m, Elements(list), pairs[s]);
        var p :| p in Elements(list) && Arc(p, pairs[s], y) in m.arcs;
        var i :| 0 <= i < |list| && list[i] == p;
        RowAt(trans, m, pairs, p);
        NoneBetween(trans[list[i]], lo, hi, s, y);
      }
    }
  }

  lemma NoneBetween(t: TransArray, lo: int, hi: int, s: int, y: int)
    requires CursorAt(t, lo, hi) && lo < s < hi
    ensures Trans(s, y) !in t.transitions
  {
  }

  class Mover {
    const n: nat
    const closer: Closer
    const trans: array<TransArray>
    const pairs: seq<Letter>
    ghost const m: Net

    constructor (n: nat, closer: Closer, trans: array<TransArray>, pairs: seq<Letter>, ghost m: Net)
      requires closer.Valid() && closer.m == m && closer.n == n == m.states && TransOK(trans[..], m, pairs)
      ensures Ready() && this.n == n && this.closer == closer && this.trans == trans && this.pairs == pairs
              && this.m == m
    {
      this.n := n;
      this.closer := closer;
      this.trans := trans;
      this.pairs := pairs;
      this.m := m;
    }

    ghost predicate Ready()
      reads this, closer, closer.eTable, closer.markTable, closer.mark, closer.tempMove, trans
    {
      closer.Valid() && closer.m == m && closer.n == n == m.states == trans.Length && TransOK(trans[..], m, pairs)
    }

    // Some state of the list has an arc with symbol s.
    ghost predicate Labelled(list: seq<int>, s: int) {
      0 <= s < |pairs| && pairs[s] != EPS && Step(m, Elements(list), pairs[s]) != {}
    }

    lemma HasMove(list: seq<int>, i: nat, k: nat)
      requires Ready() && i < |list| && 0 <= list[i] < n && k < |trans[list[i]].transitions|
      ensures Labelled(list, trans[list[i]].transitions[k].sym)
    {
      var x := list[i];
      var tr := trans[x].transitions;
      RowAt(trans[..], m, pairs, x);
      assert tr[k] in tr;
      assert Trans(tr[k].sym, tr[k].other) in tr;
      TargetBelow(x, tr, k);
      assert x in Elements(list);
      assert tr[k].other in Step(m, Elements(list), pairs[tr[k].sym]);
    }

    ghost function Moves(j: nat): set<int>
      reads closer, closer.tempMove
      requires j <= closer.tempMove.Length
    {
      Elements(closer.tempMove[..j])
    }

    // The targets of the arcs of x labelled c; the cursor moves past them.
    method CollectState(x: int, c: int, ghost lo: int, j: nat) returns (j': nat)
      requires Ready() && closer.Listed(j, closer.mainloop)
      requires 0 <= x < n && lo < c && 0 <= c < |pairs| && pairs[c] != EPS && CursorAt(trans[x], lo, c)
      modifies closer.eTable, closer.tempMove, trans
      ensures Ready() && closer.Listed(j', closer.mainloop)
      ensures forall y :: y in Moves(j') <==> y in old(Moves(j)) || Arc(x, pairs[c], y) in m.arcs
      ensures CursorAt(trans[x], c, c + 1)
      ensures forall q :: 0 <= q < n && q != x ==> trans[q] == old(trans[q])
    {
      hide TransOK, Closed, Memoized;
      RowAt(trans[..], m, pairs, x);
      ghost var trans0, m0 := trans[..], Moves(j);
      var tr, from := trans[x].transitions, trans[x].tail;
      var tail := from;
      j' := j;
      while tail < |tr| && tr[tail].sym == c
        invariant from <= tail <= |tr| && closer.Valid() && closer.Listed(j', closer.mainloop)
                  && AllSym(tr, from, tail, c)
        invariant trans[..] == trans0 && forall y :: y in Moves(j') <==> y in m0 || OtherIn(tr, from, tail, y)
        modifies closer.eTable, closer.tempMove
      {
        ghost var m1 := Moves(j');
        TargetBelow(x, tr, tail);
        j' := closer.Note(tr[tail].other, j');
        forall y ensures y in Moves(j') <==> y in m0 || OtherIn(tr, from, tail + 1, y) {
          OtherInNext(tr, from, tail, y);
        }
        tail := tail + 1;
      }
      SymbolRun(tr, from, tail, lo, c);
      trans[x] := TransArray(tr, tail);
      OnlyTails(trans0, trans[..], m, pairs);
    }

    lemma TargetBelow(x: int, tr: seq<Trans>, k: nat)
      requires Ready() && 0 <= x < n && tr == trans[x].transitions && k < |tr|
      ensures 0 <= tr[k].other < n
    {
      assert tr[k] in tr;
      RowAt(trans[..], m, pairs, x);
      assert Trans(tr[k].sym, tr[k].other) in tr;
      assert Closed(m);
      assert Arc(x, pairs[tr[k].sym], tr[k].other) in m.arcs;
    }

    lemma IsLabel(list: seq<int>, s: int)
      requires Labelled(list, s)
      ensures 0 <= s < |pairs| && pairs[s] != EPS && Step(m, Elements(list), pairs[s]) != {}
    {
    }

    // "Prepare set": cursors back to the start, and the least symbol.
    method Prepare(list: seq<int>) returns (minsym: int)
      requires Ready() && AllBelow(list, n) && NoDup(list) && |pairs| < INT_MAX
      modifies trans
      ensures Ready() && 0 <= minsym <= INT_MAX && CursorsAt(trans[..], list, -1, minsym)
      ensures minsym < INT_MAX ==> Labelled(list, minsym)
    {
      hide TransOK, Closed, Memoized, CursorAt, CursorsAt;
      minsym := INT_MAX;
      NoCursors(trans[..], -1, minsym);
      assert list[..0] == [];
      for i := 0 to |list|
        invariant Ready() && 0 <= minsym <= INT_MAX && CursorsAt(trans[..], list[..i], -1, minsym)
        invariant minsym < INT_MAX ==> Labelled(list, minsym)
      {
        var x := list[i];
        ghost var trans0, hi := trans[..], minsym;
        trans[x] := trans[x].(tail := 0);
        OnlyTails(trans0, trans[..], m, pairs);
        RowAt(trans[..], m, pairs, x);
        var tr := trans[x].transitions;
        if |tr| > 0 && tr[0].sym < minsym {
          HasMove(list, i, 0);
          minsym := tr[0].sym;
        }
        CursorAtStart(trans[x], minsym);
        NextCursor(trans0, list, i, -1, hi, minsym, trans[..]);
      }
      assert list[..|list|] == list;
    }

    // One symbol: everything the set moves to, and the next symbol.
    method CollectMoves(list: seq<int>, c: int, ghost lo: int) returns (j: nat, nextSym: int)
      requires Ready() && AllBelow(list, n) && NoDup(list) && |pairs| < INT_MAX && closer.Listed(0, closer.mainloop)
      requires lo < c && Labelled(list, c) && CursorsAt(trans[..], list, lo, c)
      modifies closer.eTable, closer.tempMove, trans
      ensures Ready() && closer.Listed(j, closer.mainloop) && Moves(j) == Step(m, Elements(list), pairs[c])
      ensures c < nextSym <= INT_MAX && CursorsAt(trans[..], list, c, nextSym)
      ensures nextSym < INT_MAX ==> Labelled(list, nextSym)
    {
      hide TransOK, Closed, Memoized, CursorAt, CursorsAt, Step, Labelled;
      j, nextSym := 0, INT_MAX;
      IsLabel(list, c);
      assert list[..0] == [] && list[0..] == list && Elements(list[..0]) == {} == Moves(0);
      StepNone(m, pairs[c]);
      NoCursors(trans[..], c, nextSym);
      for i := 0 to |list|
        invariant Ready() && closer.Listed(j, closer.mainloop)
        invariant c < nextSym <= INT_MAX && CursorsAt(trans[..], list[..i], c, nextSym)
                  && CursorsAt(trans[..], list[i..], lo, c)
        invariant nextSym < INT_MAX ==> Labelled(list, nextSym)
        invariant Moves(j) == Step(m, Elements(list[..i]), pairs[c])
      {
        var x := list[i];
        ghost var trans0, moves, hi := trans[..], Moves(j), nextSym;
        FirstCursor(trans0, list, i, lo, c);
        j := CollectState(x, c, lo, j);
        RowAt(trans[..], m, pairs, x);
        CursorInside(trans[x], c, c + 1);
        var tail, tr := trans[x].tail, trans[x].transitions;
        if tail < |tr| && tr[tail].sym < nextSym {
          HasMove(list, i, tail);
          nextSym := tr[tail].sym;
        }
        FirstIsLeast(trans[x], c, nextSym);
        NextCursor(trans0, list, i, c, hi, nextSym, trans[..]);
        LaterCursors(trans0, list, i, lo, c, trans[..]);
        StepNext(m, list, i, pairs[c], moves, Moves(j));
      }
      assert list[..|list|] == list;
    }
  }

  lemma StepNone(m: Net, l: Letter)
    ensures Step(m, {}, l) == {}
  {
  }

  lemma StepNext(m: Net, list: seq<int>, i: nat, l: Letter, moves: set<int>, moves': set<int>)
    requires i < |list| && Closed(m) && moves == Step(m, Elements(list[..i]), l)
    requires forall y :: y in moves' <==> y in moves || Arc(list[i], l, y) in m.arcs
    ensures moves' == Step(m, Elements(list[..i + 1]), l)
  {
    assert list[..i + 1] == list[..i] + [list[i]];
    assert Elements(list[..i + 1]) == Elements(list[..i]) + {list[i]};
    forall y ensures y in moves' <==> y in Step(m, Elements(list[..i + 1]), l) {
    }
  }

  lemma FirstCursor(trans: seq<TransArray>, list: seq<int>, i: nat, lo: int, hi: int)
    requires i < |list| && CursorsAt(trans, list[i..], lo, hi)
    ensures 0 <= list[i] < |trans| && CursorAt(trans[list[i]], lo, hi)
  {
    assert list[i..][0] == list[i];
  }

  lemma LaterCursors(trans: seq<TransArray>, list: seq<int>, i: nat, lo: int, hi: int, trans': seq<TransArray>)
    requires i < |list| && NoDup(list) && |trans'| == |trans| && CursorsAt(trans, list[i..], lo, hi)
    requires forall q :: 0 <= q < |trans| && q != list[i] ==> trans'[q] == trans[q]
    ensures CursorsAt(trans', list[i + 1..], lo, hi)
  {
    var later := list[i + 1..];
    forall k | 0 <= k < |later| ensures 0 <= later[k] < |trans'| && CursorAt(trans'[later[k]], lo, hi) {
      assert later[k] == list[i..][k + 1] == list[i + 1 + k];
    }
  }

  lemma NoCursors(trans: seq<TransArray>, lo: int, hi: int)
    ensures CursorsAt(trans, [], lo, hi)
  {
  }

  lemma CursorAtStart(t: TransArray, hi: int)
    requires t.tail == 0 && SortedBySym(t.transitions) && (|t.transitions| > 0 ==> hi <= t.transitions[0].sym)
    ensures CursorAt(t, -1, hi)
  {
  }

  // One more state of the list has its cursor at hi'.
  lemma NextCursor(trans: seq<TransArray>, list: seq<int>, i: nat, lo: int, hi: int, hi': int, trans': seq<TransArray>)
    requires i < |list| && NoDup(list) && |trans'| == |trans| && 0 <= list[i] < |trans|
    requires CursorsAt(trans, list[..i], lo, hi) && hi' <= hi && CursorAt(trans'[list[i]], lo, hi')
    requires forall q :: 0 <= q < |trans| && q != list[i] ==> trans'[q] == trans[q]
    ensures CursorsAt(trans', list[..i + 1], lo, hi')
  {
    var sofar := list[..i + 1];
    forall k | 0 <= k < |sofar| ensures 0 <= sofar[k] < |trans'| && CursorAt(trans'[sofar[k]], lo, hi') {
      if k < i {
        assert list[..i][k] == list[k] != list[i];
        assert CursorAt(trans[list[..i][k]], lo, hi);
        CursorWeaken(trans[list[k]], lo, hi, hi');
      }
    }
  }

  lemma NoEpsilons(m: Net, s: set<int>)
    requires EpsilonFree(m.arcs) && s <= Below(m.states)
    ensures EClose(m, s) == s
  {
    forall q | q in EClose(m, s) ensures q in s {
      var p :| p in s && Spells(m.arcs, p, [], q);
      var path :| Path(m.arcs, p, path, q) && Word(path) == [];
    }
    forall q | q in s ensures q in EClose(m, s) {
      SeedInClosure(m, s, q);
    }
  }

  // ---- The loop ----

  // Every set written has the flags of its members.
  ghost predicate FlagsMatch(flags: map<int, Flags>, sets: seq<set<int>>, finals: set<int>, done: set<int>) {
    && (forall q :: q in flags <==> q in done)
    && (forall q :: q in done ==> 0 <= q < |sets| && flags[q] == Flags(sets[q] * finals != {}, q == 0))
  }

  lemma FlagsNext(flags: map<int, Flags>, sets: seq<set<int>>, finals: set<int>, done: set<int>, T: int,
                  sets': seq<set<int>>)
    requires FlagsMatch(flags, sets, finals, done) && sets <= sets' && 0 <= T < |sets|
    ensures FlagsMatch(flags[T := Flags(sets[T] * finals != {}, T == 0)], sets', finals, done + {T})
  {
  }

  // States found but not written yet wait on the stack.
  ghost predicate Waiting(stack: seq<int>, done: set<int>, count: nat) {
    && NoDup(stack) && (forall T :: T in stack ==> 0 <= T < count && T !in done)
    && (forall T :: 0 <= T < count ==> T in done || T in stack)
  }

  class Subset {
    const n: nat
    const closer: Closer
    const interner: Interner
    const mover: Mover
    const writer: StateWriter
    const pairs: seq<Letter>
    const epsilon: int
    ghost const m: Net

    ghost predicate Valid()
      reads this, closer, closer.eTable, closer.markTable, closer.mark, closer.tempMove, mover, mover.trans
      reads interner, interner.table, interner.setTable
    {
      && mover.closer == closer && mover.Ready() && mover.m == m && mover.n == closer.n == interner.n == n
         && mover.pairs == pairs
      && interner.Valid() && FinalSet(interner.finals) == m.finals && Apart()
      && (epsilon == -1 ==> EpsilonFree(m.arcs)) && Known()
    }

    // The symbol pairs are those of the net.
    ghost predicate Known() {
      && |pairs| < INT_MAX && (forall a :: a in m.arcs ==> a.letter in pairs)
      && (forall s :: 0 <= s < |pairs| ==> pairs[s].inp >= 0 && pairs[s].outp >= 0)
    }

    ghost predicate Apart()
      reads closer, interner
    {
      interner.setTable !in {closer.eTable, closer.markTable, closer.mark, closer.tempMove}
    }

    constructor (closer: Closer, interner: Interner, mover: Mover, writer: StateWriter, epsilon: int)
      requires mover.Ready() && mover.closer == closer && mover.n == interner.n && interner.Valid()
      requires FinalSet(interner.finals) == mover.m.finals && (epsilon == -1 ==> EpsilonFree(mover.m.arcs))
      requires interner.setTable !in {closer.eTable, closer.markTable, closer.mark, closer.tempMove}
      requires |mover.pairs| < INT_MAX && forall a :: a in mover.m.arcs ==> a.letter in mover.pairs
      requires forall s :: 0 <= s < |mover.pairs| ==> mover.pairs[s].inp >= 0 && mover.pairs[s].outp >= 0
      ensures Valid() && this.closer == closer && this.interner == interner && this.mover == mover
              && this.writer == writer
      ensures this.m == mover.m && this.n == mover.n
    {
      this.n := mover.n;
      this.closer := closer;
      this.interner := interner;
      this.mover := mover;
      this.writer := writer;
      this.pairs := mover.pairs;
      this.epsilon := epsilon;
      this.m := mover.m;
    }

    ghost function Sets(): seq<set<int>>
      reads interner
    {
      SetsOf(interner.contents)
    }

    // Every stamp is older than mainloop.
    ghost predicate Fresh()
      reads closer, closer.eTable, closer.markTable, closer.mark, closer.tempMove
    {
      closer.Unmarked(closer.mainloop) && closer.Listed(0, closer.mainloop)
    }

    // e_closure; without 0:0 arcs there is nothing to add.
    method Close(j: nat) returns (size: nat)
      requires Valid() && closer.Listed(j, closer.mainloop - 1) && closer.Unmarked(closer.mainloop - 1)
      modifies closer`mainloop, closer.eTable, closer.markTable, closer.mark, closer.tempMove
      ensures Valid() && closer.Listed(size, closer.mainloop - 1) && closer.Unmarked(closer.mainloop) && size <= n
      ensures Elements(closer.tempMove[..size]) == EClose(m, old(mover.Moves(j)))
    {
      hide EClose, TransOK, Closed, Memoized, BucketsOK, Stored, Distinct, FinalSet;
      size := j;
      if epsilon != -1 {
        size := closer.EClosure(j);
      } else {
        MovesBelow(j);
        NoEpsilons(m, mover.Moves(j));
      }
    }

    lemma MovesBelow(j: nat)
      requires j <= closer.tempMove.Length && AllBelow(closer.tempMove[..j], n) && mover.closer == closer
               && m.states == n
      ensures mover.Moves(j) <= Below(m.states)
    {
    }

    // set_lookup.
    method Find(size: nat) returns (U: nat)
      requires Valid() && closer.Listed(size, closer.mainloop - 1) && closer.Unmarked(closer.mainloop) && size > 0
      modifies interner, interner.table, interner.setTable
      ensures Valid() && Fresh() && U < |Sets()| && Sets()[U] == Elements(closer.tempMove[..size])
      ensures Extended(old(Sets()), old(interner.stack), Sets(), interner.stack, U)
              && old(interner.contents) <= interner.contents
      ensures interner.table == old(interner.table) || fresh(interner.table)
      ensures interner.setTable == old(interner.setTable) || fresh(interner.setTable)
    {
      hide TransOK, Closed, Memoized, BucketsOK, Stored, Distinct, FinalSet;
      var s := closer.tempMove[..size];
      ghost var contents, stack := interner.contents, interner.stack;
      U := interner.FindInsert(s, closer.eTable, closer.mainloop - 1);
      FoundOrNew(contents, stack, s, interner.contents, interner.stack, U);
    }

    ghost predicate Exploring(T: int, done: set<int>)
      reads this, closer, closer.eTable, closer.markTable, closer.mark, closer.tempMove, mover, mover.trans
      reads interner, interner.table, interner.setTable, writer
    {
      && Valid() && Fresh() && writer.Valid(T) && 0 <= T < |Sets()| && writer.currentState == T
      && Explored(m, Sets(), ArcsOf(writer.lines), done) && Waiting(interner.stack, done + {T}, |Sets()|)
    }

    lemma ListOf(T: int)
      requires Valid() && 0 <= T < |interner.T|
      ensures NoDup(interner.contents[T]) && AllBelow(interner.contents[T], n)
              && Sets()[T] == Elements(interner.contents[T])
      ensures interner.T[T].finalstart <==> Sets()[T] * m.finals != {}
    {
    }

    method NextStamp(j: nat)
      requires Valid() && closer.Listed(j, closer.mainloop) && closer.Unmarked(closer.mainloop)
      modifies closer`mainloop
      ensures Valid() && closer.mainloop == old(closer.mainloop) + 1
      ensures closer.Listed(j, closer.mainloop - 1) && closer.Unmarked(closer.mainloop - 1)
              && mover.Moves(j) == old(mover.Moves(j))
    {
      hide TransOK, Closed, Memoized, BucketsOK, Stored, Distinct, FinalSet;
      closer.mainloop := closer.mainloop + 1;
    }

    // The set that set T moves to over one symbol.
    method Move(T: nat, list: seq<int>, c: int, ghost lo: int) returns (U: nat, next: int)
      requires Valid() && Fresh() && T < |Sets()| && list == interner.contents[T] && lo < c
      requires mover.Labelled(list, c) && CursorsAt(mover.trans[..], list, lo, c)
      modifies closer, closer.eTable, closer.markTable, closer.mark, closer.tempMove, mover.trans
      modifies interner, interner.table, interner.setTable
      ensures Valid() && Fresh() && Extended(old(Sets()), old(interner.stack), Sets(), interner.stack, U)
      ensures old(interner.contents) <= interner.contents
      ensures Sets()[U] == EClose(m, Step(m, old(Sets()[T]), pairs[c])) && c < next <= INT_MAX
      ensures next < INT_MAX ==> mover.Labelled(list, next)
      ensures CursorsAt(mover.trans[..], list, c, next)
      ensures interner.table == old(interner.table) || fresh(interner.table)
      ensures interner.setTable == old(interner.setTable) || fresh(interner.setTable)
    {
      hide TransOK, Closed, Memoized, BucketsOK, Stored, Distinct, FinalSet, CursorsAt, Step, EClose;
      ListOf(T);
      mover.IsLabel(list, c);
      var j;
      j, next := mover.CollectMoves(list, c, lo);
      NextStamp(j);
      var size := Close(j);
      NotEmpty(m, Step(m, Elements(list), pairs[c]), closer.tempMove[..size]);
      U := Find(size);
    }

    // All moves of set T over one symbol.
    method OneSymbol(T: nat, list: seq<int>, c: int, ghost lo: int, ghost done: set<int>,
                     ghost t0: seq<Line>, ghost rest: seq<int>, ghost pushed: seq<int>)
                       returns (next: int, ghost pushed': seq<int>)
      requires interner.stack == rest + pushed && Order.Finding(t0, writer.lines, T, rest, pushed, |Sets()|)
      requires Exploring(T, done) && T !in done && list == interner.contents[T] && lo < c
      requires mover.Labelled(list, c) && CursorsAt(mover.trans[..], list, lo, c)
      requires RowDone(m, Sets(), ArcsOf(writer.lines), T, pairs, c)
      modifies closer, closer.eTable, closer.markTable, closer.mark, closer.tempMove, mover.trans
      modifies interner, interner.table, interner.setTable, writer
      ensures Exploring(T, done) && c < next <= INT_MAX && old(interner.contents) <= interner.contents
              && writer.flags == old(writer.flags)
      ensures next < INT_MAX ==> mover.Labelled(list, next)
      ensures CursorsAt(mover.trans[..], list, c, next) && RowDone(m, Sets(), ArcsOf(writer.lines), T, pairs, next)
      ensures interner.stack == rest + pushed' && Order.Finding(t0, writer.lines, T, rest, pushed', |Sets()|)
      ensures interner.table == old(interner.table) || fresh(interner.table)
      ensures interner.setTable == old(interner.setTable) || fresh(interner.setTable)
    {
      hide TransOK, Closed, Memoized, BucketsOK, Stored, Distinct, FinalSet, CursorsAt, Explored, RowDone, Waiting,
           Step, EClose;
      hide StateWriter.Valid, Fresh, Mover.Labelled, Order.Finding, ArcsOf;
      ListOf(T);
      mover.IsLabel(list, c);
      ghost var sets, stack, arcs, t := Sets(), interner.stack, ArcsOf(writer.lines), writer.lines;
      var U;
      U, next := Move(T, list, c, lo);
      CursorGap(mover.trans[..], m, pairs, list, c, next);
      writer.AddArc(pairs[c].inp, pairs[c].outp, U);
      ghost var a := Arc(T, pairs[c], U);
      SymbolDone(m, sets, stack, arcs, done, Sets(), interner.stack, a, pairs, c, next);
      pushed' := FoundNext(sets, stack, t0, t, T, rest, pushed, pairs[c], U);
    }

    // The state that the new arc goes to, if it is new, has its line.
    lemma FoundNext(sets: seq<set<int>>, stack: seq<int>, t0: seq<Line>, t: seq<Line>, T: nat, rest: seq<int>,
                    pushed: seq<int>, l: Letter, U: nat)
      returns (pushed': seq<int>)
      requires Extended(sets, stack, Sets(), interner.stack, U) && stack == rest + pushed
               && Order.Finding(t0, t, T, rest, pushed, |sets|)
      requires Arc(T, l, U) in ArcsOf(writer.lines) && Order.Appended(t, writer.lines, T)
      ensures interner.stack == rest + pushed' && Order.Finding(t0, writer.lines, T, rest, pushed', |Sets()|)
    {
      hide Order.Finding, Order.Appended, ArcsOf;
      HasArcLine(writer.lines, Arc(T, l, U));
      Order.MoreLines(t0, t, T, rest, pushed, |sets|, writer.lines);
      if Sets() == sets && interner.stack == stack {
        pushed' := pushed;
      } else {
        pushed' := pushed + [U];
        assert rest + pushed' == (rest + pushed) + [U];
      }
    }

    method SetAt(T: nat) returns (list: seq<int>)
      requires Valid() && T < |interner.T|
      ensures list == interner.contents[T]
    {
      interner.StoredAt(T);
      var e := interner.T[T];
      list := interner.setTable[e.offset..e.offset + e.size];
    }

    // One turn of the main loop: set T gets its flags and arcs.
    method WriteState(T: nat, ghost done: set<int>)
      requires Valid() && Fresh() && writer.Valid(-1) && T < |Sets()| && T !in done && T !in writer.flags
      requires Explored(m, Sets(), ArcsOf(writer.lines), done) && Waiting(interner.stack, done + {T}, |Sets()|)
      requires Order.Finding(writer.lines, writer.lines, T, interner.stack, [], |Sets()|)
      modifies closer, closer.eTable, closer.markTable, closer.mark, closer.tempMove, mover.trans
      modifies interner, interner.table, interner.setTable, writer
      ensures Valid() && Fresh() && writer.Valid(-1) && old(interner.contents) <= interner.contents
      ensures Explored(m, Sets(), ArcsOf(writer.lines), done + {T}) && Waiting(interner.stack, done + {T}, |Sets()|)
      ensures writer.flags == old(writer.flags)[T := Flags(old(Sets()[T]) * m.finals != {}, T == 0)]
      ensures Order.Found(writer.lines, interner.stack, |Sets()|)
      ensures interner.table == old(interner.table) || fresh(interner.table)
      ensures interner.setTable == old(interner.setTable) || fresh(interner.setTable)
    {
      hide TransOK, Closed, Memoized, BucketsOK, Stored, Distinct, FinalSet, CursorsAt, Explored, RowDone, Waiting,
           Step, EClose, ArcsOf, NoDup, Numbering;
      hide StateWriter.Valid, Fresh, Mover.Labelled, Order.Finding, Order.Found, Order.Appended, HasLine;
      ghost var t0, rest, pushed := writer.lines, interner.stack, [];
      assert rest + pushed == rest;
      var list, minsym := StartRow(T, done);
      ghost var lo := -1;
      ghost var contents, flags := interner.contents, writer.flags;
      while minsym != INT_MAX
        invariant Exploring(T, done) && -1 <= lo < minsym <= INT_MAX && contents <= interner.contents
                  && writer.flags == flags
        invariant (minsym < INT_MAX ==> mover.Labelled(list, minsym)) && list == interner.contents[T]
        invariant CursorsAt(mover.trans[..], list, lo, minsym)
                  && RowDone(m, Sets(), ArcsOf(writer.lines), T, pairs, minsym)
        invariant interner.stack == rest + pushed && Order.Finding(t0, writer.lines, T, rest, pushed, |Sets()|)
        invariant interner.table == old(interner.table) || fresh(interner.table)
        invariant interner.setTable == old(interner.setTable) || fresh(interner.setTable)
        decreases INT_MAX - minsym
      {
        ghost var sym := minsym;
        list := SetAt(T);
        minsym, pushed := OneSymbol(T, list, minsym, lo, done, t0, rest, pushed);
        lo := sym;
      }
      RowFull(m, Sets(), ArcsOf(writer.lines), done, T, pairs, minsym);
      EndRow(T, t0, rest, pushed);
    }

    // The row of T is begun, and its first symbol found.
    method StartRow(T: nat, ghost done: set<int>) returns (list: seq<int>, minsym: int)
      requires Valid() && Fresh() && writer.Valid(-1) && T < |Sets()| && T !in done && T !in writer.flags
      requires Explored(m, Sets(), ArcsOf(writer.lines), done) && Waiting(interner.stack, done + {T}, |Sets()|)
      modifies mover.trans, writer
      ensures Exploring(T, done) && -1 < minsym <= INT_MAX && list == interner.contents[T]
      ensures (minsym < INT_MAX ==> mover.Labelled(list, minsym)) && CursorsAt(mover.trans[..], list, -1, minsym)
      ensures RowDone(m, Sets(), ArcsOf(writer.lines), T, pairs, minsym) && writer.lines == old(writer.lines)
      ensures writer.flags == old(writer.flags)[T := Flags(old(Sets()[T]) * m.finals != {}, T == 0)]
    {
      hide TransOK, Closed, Memoized, BucketsOK, Stored, Distinct, FinalSet, CursorsAt, Explored, RowDone, Waiting,
           Step, EClose, ArcsOf, NoDup, Numbering, StateWriter.Valid, Fresh, Mover.Labelled, HasLine;
      ListOf(T);
      writer.SetCurrentState(T, interner.T[T].finalstart, T == 0);
      list := SetAt(T);
      minsym := mover.Prepare(list);
      CursorGap(mover.trans[..], m, pairs, list, -1, minsym);
      RowStart(m, Sets(), ArcsOf(writer.lines), T, pairs, minsym);
    }

    // The row is complete.
    method EndRow(T: nat, ghost t0: seq<Line>, ghost rest: seq<int>, ghost pushed: seq<int>)
      requires Valid() && writer.Valid(T) && writer.currentState == T && interner.stack == rest + pushed
      requires Order.Finding(t0, writer.lines, T, rest, pushed, |Sets()|)
      modifies writer
      ensures writer.Valid(-1) && writer.flags == old(writer.flags) && ArcsOf(writer.lines) == old(ArcsOf(writer.lines))
      ensures Order.Found(writer.lines, interner.stack, |Sets()|)
    {
      hide Valid, Fresh, StateWriter.Valid, Order.Finding, Order.Found, Order.Appended, HasLine, ArcsOf;
      ghost var t := writer.lines;
      writer.EndState();
      Order.MoreLines(t0, t, T, rest, pushed, |Sets()|, writer.lines);
      Order.CloseRow(t0, writer.lines, T, rest, pushed, |Sets()|);
    }

    // The main loop: sets are written until none waits.
    method WriteAll() returns (ghost done: set<int>)
      requires Valid() && Fresh() && writer.Valid(-1) && writer.flags == map[] && writer.lines == []
               && interner.stack == []
      requires |Sets()| == 1 && Sets()[0] == EClose(m, m.starts)
      modifies closer, closer.eTable, closer.markTable, closer.mark, closer.tempMove, mover.trans
      modifies interner, interner.table, interner.setTable, writer
      ensures Valid() && writer.Valid(-1) && FlagsMatch(writer.flags, Sets(), m.finals, Below(|Sets()|))
      ensures Explored(m, Sets(), ArcsOf(writer.lines), Below(|Sets()|)) && Order.InOrder(writer.lines)
    {
      hide TransOK, Closed, Memoized, BucketsOK, Stored, Distinct, FinalSet, Explored, Waiting, EClose, FlagsMatch,
           Step, StartSet, NoDup;
      hide Extended, ArcsOf, Subsets;
      hide StateWriter.Valid, Valid, Fresh, Order.Found, Order.Finding, Order.InOrder;
      done := {};
      var T, more := 0, true;
      Order.NothingFound();
      FirstSet(m, Sets()[0]);
      NoLines(writer.lines);
      assert Sets() == [Sets()[0]];
      OneWaits(interner.stack);
      NothingWritten(Sets(), m.finals);
      while more
        invariant Valid() && Fresh() && writer.Valid(-1) && FlagsMatch(writer.flags, Sets(), m.finals, done)
                  && Explored(m, Sets(), ArcsOf(writer.lines), done)
        invariant more ==> 0 <= T < |Sets()| && T !in done && Waiting(interner.stack, done + {T}, |Sets()|)
        invariant !more ==> Waiting([], done, |Sets()|) && Order.InOrder(writer.lines)
        invariant more ==> Order.Finding(writer.lines, writer.lines, T, interner.stack, [], |Sets()|)
        invariant interner.table == old(interner.table) || fresh(interner.table)
        invariant interner.setTable == old(interner.setTable) || fresh(interner.setTable)
        decreases |Subsets(n)| - |done|
      {
        ghost var sets, flags := Sets(), writer.flags;
        DoneBound(done, T);
        NotWritten(flags, sets, m.finals, done, T);
        WriteState(T, done);
        FlagsNext(flags, sets, m.finals, done, T, Sets());
        done := done + {T};
        T, more := NextUnmarked(done);
      }
      AllDone(done, |Sets()|, m, Sets(), ArcsOf(writer.lines));
    }

    // int_stack_clear.
    method ClearStack()
      requires Valid() && Fresh()
      modifies interner`stack
      ensures Valid() && Fresh() && interner.contents == old(interner.contents) && interner.stack == []
    {
      hide TransOK, Closed, Memoized, BucketsOK, Stored, Distinct, FinalSet;
      interner.stack := [];
    }

    // initial_e_closure: the closure of the start states is set 0.
    method FirstClosure(j: nat)
      requires Valid() && closer.Listed(j, closer.mainloop) && closer.Unmarked(closer.mainloop)
      requires interner.contents == [] && interner.stack == [] && mover.Moves(j) == m.starts != {}
      modifies closer, closer.eTable, closer.markTable, closer.mark, closer.tempMove
      modifies interner, interner.table, interner.setTable
      ensures Valid() && Fresh() && interner.stack == [] && |Sets()| == 1 && Sets()[0] == EClose(m, m.starts)
      ensures interner.table == old(interner.table) || fresh(interner.table)
      ensures interner.setTable == old(interner.setTable) || fresh(interner.setTable)
    {
      hide TransOK, Closed, Memoized, BucketsOK, Stored, Distinct, FinalSet, EClose;
      MovesBelow(j);
      NextStamp(j);
      var size := Close(j);
      NotEmpty(m, m.starts, closer.tempMove[..size]);
      var T := Find(size);
      ClearStack();
    }

    // The loop and fsm_state_close.
    method Build() returns (out: seq<Line>, states: nat)
      requires Valid() && Fresh() && writer.Valid(-1) && writer.flags == map[] && writer.lines == []
               && interner.stack == []
      requires |Sets()| == 1 && Sets()[0] == EClose(m, m.starts) && Closed(m)
      modifies closer, closer.eTable, closer.markTable, closer.mark, closer.tempMove, mover.trans
      modifies interner, interner.table, interner.setTable, writer
      ensures Pointers.IsNet(out, states) && Order.InOrder(out) && IsSubsetNet(m, Meaning(out, states))
      ensures forall q :: 0 <= q < states ==> Reachable(Meaning(out, states), q)
    {
      hide TransOK, Memoized, BucketsOK, Stored, Distinct, FinalSet, EClose, Closed, Explored, FlagsMatch,
           StateWriter.Valid, Valid, Fresh;
      ghost var done := WriteAll();
      ghost var sets := Sets();
      KeysAreStates(writer.flags, sets, m.finals);
      ArcTargets(m, sets, ArcsOf(writer.lines), Below(|sets|));
      var table, deterministic := writer.Close(|sets|);
      out, states := table[..|table| - 1], writer.statecount;
      assert out == writer.lines;
      Finished(m, sets, out, writer.flags);
    }

    // next_unmarked.
    method NextUnmarked(ghost done: set<int>) returns (T: int, more: bool)
      requires Valid() && Fresh() && Waiting(interner.stack, done, |Sets()|)
               && Order.Found(writer.lines, interner.stack, |Sets()|)
      modifies interner`stack
      ensures Valid() && Fresh() && interner.contents == old(interner.contents)
      ensures more ==> 0 <= T < |Sets()| && T !in done && Waiting(interner.stack, done + {T}, |Sets()|)
      ensures !more ==> Waiting([], done, |Sets()|) && Order.InOrder(writer.lines)
      ensures more ==> Order.Finding(writer.lines, writer.lines, T, interner.stack, [], |Sets()|)
    {
      hide TransOK, Closed, Memoized, BucketsOK, Stored, Distinct, FinalSet, Waiting, Order.Found, Order.Finding;
      T, more := -1, interner.stack != [];
      if !more {
        Order.AllFound(writer.lines, |Sets()|);
      } else {
        NextWaits(interner.stack, done, |Sets()|);
        T := interner.stack[|interner.stack| - 1];
        assert interner.stack == interner.stack[..|interner.stack| - 1] + [T];
        Order.OpenRow(writer.lines, interner.stack[..|interner.stack| - 1], T, |Sets()|);
        interner.stack := interner.stack[..|interner.stack| - 1];
      }
    }

    lemma DoneBound(done: set<int>, T: int)
      requires Valid() && Explored(m, Sets(), ArcsOf(writer.lines), done) && 0 <= T < |Sets()| && T !in done
      ensures |done| < |Subsets(n)|
    {
      hide TransOK, Closed, Memoized, BucketsOK, Stored, Distinct, FinalSet, EClose, Step;
      var sets := Sets();
      DoneBelow(m, sets, ArcsOf(writer.lines), done);
      hide Explored;
      forall i | 0 <= i < |sets| ensures sets[i] <= Below(n) {
        ListOf(i);
      }
      SetsBound(sets, n);
      BelowSize(|sets|);
      SubsetSize(done + {T}, Below(|sets|));
    }
  }

  lemma DoneBelow(m: Net, sets: seq<set<int>>, arcs: set<Arc>, done: set<int>)
    requires Explored(m, sets, arcs, done)
    ensures forall T :: T in done ==> 0 <= T < |sets|
    ensures forall i, j :: 0 <= i < j < |sets| ==> sets[i] != sets[j]
  {
  }

  lemma NotEmpty(m: Net, s: set<int>, list: seq<int>)
    requires s != {} && s <= Below(m.states) && Elements(list) == EClose(m, s)
    ensures list != []
  {
    var q :| q in s;
    SeedInClosure(m, s, q);
  }

  lemma SymbolDone(m: Net, sets: seq<set<int>>, stack: seq<int>, arcs: set<Arc>, done: set<int>,
                   sets': seq<set<int>>, stack': seq<int>, a: Arc, pairs: seq<Letter>, c: int, next: int)
    requires Explored(m, sets, arcs, done) && Waiting(stack, done + {a.src}, |sets|) && a.dst >= 0
             && Extended(sets, stack, sets', stack', a.dst)
    requires 0 <= a.src < |sets| && 0 <= c < |pairs| && a.letter == pairs[c] != EPS
             && RowDone(m, sets, arcs, a.src, pairs, c)
    requires Step(m, sets[a.src], a.letter) != {} && sets'[a.dst] == EClose(m, Step(m, sets[a.src], a.letter))
    requires forall s :: 0 <= s < |pairs| && c < s < next && pairs[s] != EPS ==> Step(m, sets[a.src], pairs[s]) == {}
    ensures Explored(m, sets', arcs + {a}, done) && Waiting(stack', done + {a.src}, |sets'|)
    ensures sets <= sets' && RowDone(m, sets', arcs + {a}, a.src, pairs, next)
  {
    hide Step, EClose;
    AddedArc(m, sets, arcs, done, sets', a);
    assert stack' == stack || (stack' == stack + [a.dst] && a.dst !in stack);
    RowGrows(m, sets, arcs, a.src, pairs, c, sets', a, c, next);
  }

  // Either nothing changed or set U is new and waits.
  ghost predicate Extended(sets: seq<set<int>>, stack: seq<int>, sets': seq<set<int>>, stack': seq<int>, U: nat) {
    && U < |sets'|
    && ((sets' == sets && stack' == stack)
        || (sets' == sets + [sets'[U]] && sets'[U] !in sets && U == |sets| && stack' == stack + [U]))
  }

  lemma FoundOrNew(contents: seq<seq<int>>, stack: seq<int>, s: seq<int>, contents': seq<seq<int>>, stack': seq<int>,
                   U: nat)
    requires U < |contents'| && Elements(contents'[U]) == Elements(s)
    requires (exists i :: 0 <= i < |contents| && Elements(contents[i]) == Elements(s)) ==>
               contents' == contents && stack' == stack
    requires (forall i :: 0 <= i < |contents| ==> Elements(contents[i]) != Elements(s)) ==>
               U == |contents| && contents' == contents + [s] && stack' == stack + [U]
    ensures Extended(SetsOf(contents), stack, SetsOf(contents'), stack', U) && contents <= contents'
  {
    if forall i :: 0 <= i < |contents| ==> Elements(contents[i]) != Elements(s) {
      assert SetsOf(contents') == SetsOf(contents) + [Elements(s)];
    }
  }

  lemma NotWritten(flags: map<int, Flags>, sets: seq<set<int>>, finals: set<int>, done: set<int>, T: int)
    requires FlagsMatch(flags, sets, finals, done) && T !in done
    ensures T !in flags
  {
  }

  lemma NothingWritten(sets: seq<set<int>>, finals: set<int>)
    ensures FlagsMatch(map[], sets, finals, {})
  {
  }

  lemma OneWaits(stack: seq<int>)
    requires stack == []
    ensures Waiting(stack, {} + {0}, 1)
  {
  }

  lemma NextWaits(stack: seq<int>, done: set<int>, count: nat)
    requires Waiting(stack, done, count) && stack != []
    ensures var T := stack[|stack| - 1];
            0 <= T < count && T !in done && Waiting(stack[..|stack| - 1], done + {T}, count)
  {
    var T, rest := stack[|stack| - 1], stack[..|stack| - 1];
    assert stack == rest + [T] && T in stack;
    forall x | x in rest ensures x in stack && x != T {
      var k :| 0 <= k < |rest| && rest[k] == x;
      assert stack[k] == x;
    }
  }

  lemma AllDone(done: set<int>, count: nat, m: Net, sets: seq<set<int>>, arcs: set<Arc>)
    requires Waiting([], done, count) && Explored(m, sets, arcs, done) && count == |sets|
    ensures done == Below(count)
  {
    hide Step, EClose;
    forall T | T in done ensures T in Below(count) {
    }
  }

  // ---- fsm_subset ----

  // initial_e_closure: the finals table, and the start states as the first set.
  method InitialStates(t: seq<Line>, n: nat, closer: Closer) returns (finals: seq<bool>, j: nat, numss: int)
    requires IsTable(t, n) && closer.Valid() && closer.n == n && closer.Listed(0, closer.mainloop)
    modifies closer.eTable, closer.tempMove
    ensures closer.Valid() && closer.Listed(j, closer.mainloop) && Elements(closer.tempMove[..j]) == StartsOf(t)
    ensures |finals| == n && FinalSet(finals) == FinalsOf(t)
    ensures j == 1 && numss == 0 <==> StartsOf(t) == {0}
  {
    hide IsTable, FinalsOf, StartsOf, Memoized, Closed;
    finals, j, numss := seq(n, _ => false), 0, 0;
    NoLines(t[..0]);
    assert FinalSet(finals) == {} == Elements(closer.tempMove[..0]);
    for i := 0 to |t|
      invariant closer.Valid() && closer.Listed(j, closer.mainloop)
                && Elements(closer.tempMove[..j]) == StartsOf(t[..i])
      invariant |finals| == n && FinalSet(finals) == FinalsOf(t[..i])
      invariant j > 0 ==> closer.tempMove[j - 1] == numss
    {
      TableLine(t, n, i);
      assert t[..i + 1] == t[..i] + [t[i]];
      FinalsSnoc(t[..i], t[i]);
      StartsSnoc(t[..i], t[i]);
      var s := t[i].state;
      if t[i].final {
        assert FinalSet(finals[s := true]) == FinalSet(finals) + {s};
        finals := finals[s := true];
      }
      if t[i].start && closer.eTable[s] != closer.mainloop {
        numss := s;
        j := closer.Note(s, j);
      } else if t[i].start {
        assert s in closer.tempMove[..j];
      }
    }
    assert t[..|t|] == t;
    OneStart(closer.tempMove[..j], numss);
  }

  lemma OneStart(list: seq<int>, last: int)
    requires NoDup(list) && (list != [] ==> list[|list| - 1] == last)
    ensures |list| == 1 && last == 0 <==> Elements(list) == {0}
  {
    if |list| == 1 && last == 0 {
      assert list == [0];
    }
    if Elements(list) == {0} {
      assert 0 in list;
      assert |list| > 1 ==> list[0] != list[1];
      forall i | 0 <= i < |list| ensures list[i] == 0 {
        assert list[i] in Elements(list);
      }
    }
  }

  // The smallest prime in the list that holds size.
  method FirstPrime(size: nat) returns (p: nat)
    ensures p > 0 && p in PRIMES
  {
    var i := 0;
    while i < |PRIMES| - 1 && PRIMES[i] < size
      invariant i < |PRIMES|
    {
      i := i + 1;
    }
    p := PRIMES[i];
  }

  // next_power_of_two.
  method NextPowerOfTwo(v: nat) returns (p: nat)
    ensures v < p
  {
    p := 1;
    var rest := v;
    while rest > 0
      invariant v < (rest + 1) * p && p > 0
    {
      Halve(v, rest, p);
      rest := rest / 2;
      p := p * 2;
    }
  }

  lemma Halve(v: nat, rest: nat, p: nat)
    requires v < (rest + 1) * p
    ensures v < (rest / 2 + 1) * (p * 2)
  {
    var h := rest / 2 + 1;
    assert rest + 1 <= 2 * h;
    assert (rest + 1) * p <= (2 * h) * p;
    assert (2 * h) * p == h * (p * 2);
  }

  // No 0:0 arcs at all.
  lemma NoTargets(m: Net)
    requires EpsilonFree(m.arcs)
    ensures Memoized(m, seq(m.states, _ => []))
  {
  }

  lemma SameAsItself(m: Net)
    ensures SameLanguage(m, m)
  {
  }

  // What the symbol numbers say about the net.
  lemma LabelFacts(t: seq<Line>, n: nat, num: map<Letter, int>, pairs: seq<Letter>, epsilon: int)
    requires IsTable(t, n) && Numbering(num, pairs) && (forall l :: l in num <==> Labels(t, |t|, l))
    requires epsilon == if EPS in num then num[EPS] else -1
    ensures forall a :: a in ArcsOf(t) ==> a.letter in num && a.letter in pairs
    ensures forall s :: 0 <= s < |pairs| ==> pairs[s].inp >= 0 && pairs[s].outp >= 0
    ensures epsilon == -1 <==> EPS !in num
    ensures epsilon == -1 <==> EpsilonFree(ArcsOf(t))
  {
    if EPS in num {
      var i :| 0 <= i < |t| && t[i].target != -1 && LineArc(t[i]).letter == EPS;
      assert LineArc(t[i]) in ArcsOf(t);
    }
    forall a | a in ArcsOf(t) ensures a.letter in num && a.letter in pairs {
      var i :| 0 <= i < |t| && t[i].target != -1 && LineArc(t[i]) == a;
      assert Labels(t, |t|, a.letter);
      assert pairs[num[a.letter]] == a.letter;
    }
    forall s | 0 <= s < |pairs| ensures pairs[s].inp >= 0 && pairs[s].outp >= 0 {
      assert pairs[s] in num && Labels(t, |t|, pairs[s]);
      var i :| 0 <= i < |t| && t[i].target != -1 && LineArc(t[i]).letter == pairs[s];
      assert LineOK(t[i], n);
    }
  }

  // Nothing is to be done: the net is marked deterministic, or it is and no arc
  // is in the table twice.
  ghost predicate Keeps(t: seq<Line>, n: nat, known: bool) {
    known || (Deterministic(Meaning(t, n)) && Pointers.DistinctLines(t))
  }

  // fsm_determinize.  known says that the net is marked deterministic already.
  method FsmDeterminize(t: seq<Line>, n: nat, known: bool) returns (out: seq<Line>, states: nat, kept: bool)
    requires IsTable(t, n) && Grouped(t) && |Letters(ArcsOf(t))| < INT_MAX && StartsOf(t) != {}
    requires known ==> Deterministic(Meaning(t, n))
    ensures IsTable(out, states) && Grouped(out) && Deterministic(Meaning(out, states))
    ensures SameLanguage(Meaning(t, n), Meaning(out, states))
    ensures kept <==> Keeps(t, n, known)
    ensures kept ==> out == t && states == n
    ensures !kept ==> Pointers.IsNet(out, states) && Order.InOrder(out)
                      && IsSubsetNet(Meaning(t, n), Meaning(out, states))
    ensures !kept ==> forall q :: 0 <= q < states ==> Reachable(Meaning(out, states), q)
  {
    hide Memoized, TransOK, IsTable, Numbering, Labels, Grouped, SameLanguage, Closed, Functional, EpsilonFree,
         FinalsOf, ArcsOf, FinalSet;
    hide Closer.Valid, Closer.Listed, Closer.Unmarked, OneEach, Deterministic, Pointers.DistinctLines;
    out, states, kept := t, n, true;
    SameAsItself(Meaning(t, n));
    if known {
      return;
    }
    ghost var m := Meaning(t, n);
    TableIsClosed(t, n);
    TableLines(t, n);
    var num, pairs, epsilon := SigmaToPairs(t, n);
    LabelFacts(t, n, num, pairs, epsilon);
    NumberOfLetters(t, num, pairs);
    var trans, deterministic := InitTransArray(t, n, num, pairs, epsilon);
    var targets := seq(n, _ => []);
    if epsilon != -1 {
      var plain;
      targets, plain := MemoizeEClosure(t, n);
      deterministic := deterministic && plain;
    } else {
      NoTargets(m);
    }
    var closer := new Closer(n, targets, m);
    closer.NothingListed();
    var finals, j, numss := InitialStates(t, n, closer);
    AlreadyDeterministic(t, n);
    if deterministic && epsilon == -1 && j == 1 && numss == 0 {
      return;
    }
    kept := false;
    out, states := BuildSubsets(t, n, closer, finals, j, trans, pairs, epsilon);
    SubsetLanguage(m, Meaning(out, states));
  }

  lemma SubsetLanguage(m: Net, k: Net)
    requires Closed(m) && IsSubsetNet(m, k)
    ensures SameLanguage(m, k) && Deterministic(k)
  {
    hide IsPowerset;
    var sets :| IsPowerset(m, k, sets);
    PowersetLanguage(m, k, sets);
    PowersetIsDeterministic(m, k, sets);
  }

  lemma PowersetIsDeterministic(m: Net, k: Net, sets: seq<set<int>>)
    requires IsPowerset(m, k, sets)
    ensures Deterministic(k)
  {
  }

  method BuildSubsets(t: seq<Line>, n: nat, closer: Closer, finals: seq<bool>, j: nat, trans: array<TransArray>,
                      pairs: seq<Letter>, epsilon: int)
    returns (out: seq<Line>, states: nat)
    requires IsTable(t, n) && StartsOf(t) != {} && Closed(Meaning(t, n))
    requires closer.Valid() && closer.n == n && closer.m == Meaning(t, n) && closer.Listed(j, closer.mainloop)
             && closer.Unmarked(closer.mainloop)
    requires Elements(closer.tempMove[..j]) == StartsOf(t) && |finals| == n && FinalSet(finals) == FinalsOf(t)
    requires TransOK(trans[..], Meaning(t, n), pairs) && |pairs| < INT_MAX
             && (forall a :: a in ArcsOf(t) ==> a.letter in pairs)
    requires (forall s :: 0 <= s < |pairs| ==> pairs[s].inp >= 0 && pairs[s].outp >= 0)
             && (epsilon == -1 ==> EpsilonFree(ArcsOf(t)))
    modifies closer, closer.eTable, closer.markTable, closer.mark, closer.tempMove, trans
    ensures Pointers.IsNet(out, states) && Order.InOrder(out) && IsSubsetNet(Meaning(t, n), Meaning(out, states))
    ensures forall q :: 0 <= q < states ==> Reachable(Meaning(out, states), q)
  {
    hide Memoized, TransOK, IsTable, StartsOf, FinalsOf, ArcsOf, FinalSet, BucketsOK, Stored, Distinct, EClose, Closed;
    hide Closer.Listed, Closer.Unmarked, StateWriter.Valid, Pointers.IsNet, Order.InOrder, EpsilonFree, Elements;
    ghost var m := Meaning(t, n);
    var tablesize := FirstPrime(if n < 12 then 6 else n / 2);
    var setTableSize := NextPowerOfTwo(n);
    var interner := new Interner(n, finals, tablesize, setTableSize);
    var writer := new StateWriter();
    var mover := new Mover(n, closer, trans, pairs, m);
    var subset := new Subset(closer, interner, mover, writer, epsilon);
    subset.FirstClosure(j);
    out, states := subset.Build();
  }

  lemma KeysAreStates(flags: map<int, Flags>, sets: seq<set<int>>, finals: set<int>)
    requires FlagsMatch(flags, sets, finals, Below(|sets|))
    ensures forall q :: q in flags <==> 0 <= q < |sets|
  {
  }

  lemma ArcTargets(m: Net, sets: seq<set<int>>, arcs: set<Arc>, done: set<int>)
    requires Explored(m, sets, arcs, done)
    ensures forall a :: a in arcs ==> 0 <= a.dst < |sets|
  {
  }

  lemma Finished(m: Net, sets: seq<set<int>>, out: seq<Line>, flags: map<int, Flags>)
    requires Closed(m) && Explored(m, sets, ArcsOf(out), Below(|sets|))
             && FlagsMatch(flags, sets, m.finals, Below(|sets|))
    requires StartsOf(out) == StartSet(flags) && forall q :: q in FinalsOf(out) <==> q in flags && flags[q].final
    ensures IsPowerset(m, Meaning(out, |sets|), sets) && forall q :: 0 <= q < |sets| ==>
                                                                       Reachable(Meaning(out, |sets|), q)
  {
    hide EClose, Step;
    forall q ensures q in StartSet(flags) <==> q == 0 {
      assert q in flags <==> q in Below(|sets|);
    }
    forall q ensures q in FinalsOf(out) <==> 0 <= q < |sets| && sets[q] * m.finals != {} {
      assert q in flags <==> q in Below(|sets|);
    }
    ExploredAll(m, sets, Meaning(out, |sets|));
  }
}
