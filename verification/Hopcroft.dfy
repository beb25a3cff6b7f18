// fsm_minimize_hop (minimize.c): the agenda loop.

module Hopcroft {
  import opened Counting
  import opened Splitters
  import opened Blocks
  import opened Transitions
  import opened Widths
  import opened Refine
  import opened Inverse

  // The c-predecessors of the states of group.
  ghost predicate Gathered(d: Delta, group: seq<int>, c: int, moves: set<int>) {
    forall y :: y in moves <==> (y, c) in d && d[(y, c)] in group
  }

  ghost predicate SymbolsBelow(d: Delta, limit: int) {
    forall k :: k in d ==> k.1 < limit
  }

  // The cursors of the first states of l are set, and all others as before.
  ghost predicate Gathering(trans0: seq<TransArray>, trans: seq<TransArray>, l: seq<int>, size: nat, lo: int,
                            minsym: int) {
    && |trans| == |trans0| && size <= |l| && AllBelow(l, |trans|)
    && (forall k :: 0 <= k < size ==> CursorAt(trans[l[k]], lo, minsym))
    && (forall k :: size <= k < |l| ==> trans[l[k]] == trans0[l[k]])
    && (forall q :: 0 <= q < |trans| && q !in l ==> trans[q] == trans0[q])
  }

  lemma NothingGathered(trans: seq<TransArray>, l: seq<int>, lo: int, minsym: int)
    requires AllBelow(l, |trans|)
    ensures Gathering(trans, trans, l, 0, lo, minsym)
  {
  }

  lemma NotGathered(trans0: seq<TransArray>, trans: seq<TransArray>, l: seq<int>, size: nat, lo: int, minsym: int)
    requires Gathering(trans0, trans, l, size, lo, minsym) && size < |l|
    ensures 0 <= l[size] < |trans| == |trans0| && trans[l[size]] == trans0[l[size]] && l[size] in l
  {
  }

  lemma GatheringNext(trans0: seq<TransArray>, trans: seq<TransArray>, trans': seq<TransArray>, l: seq<int>, size: nat,
                      lo: int, minsym: int, minsym': int)
    requires Gathering(trans0, trans, l, size, lo, minsym) && size < |l| && NoDup(l)
             && 0 <= l[size] < |trans| == |trans'|
    requires CursorAt(trans'[l[size]], lo, minsym') && minsym' <= minsym
    requires forall q :: 0 <= q < |trans| && q != l[size] ==> trans'[q] == trans[q]
    ensures Gathering(trans0, trans', l, size + 1, lo, minsym')
  {
    hide CursorAt;
    forall k | 0 <= k < size + 1 ensures CursorAt(trans'[l[k]], lo, minsym') {
      if k < size {
        CursorWeaken(trans[l[k]], lo, minsym, minsym');
      }
    }
  }

  lemma AllGathered(trans0: seq<TransArray>, trans: seq<TransArray>, l: seq<int>, lo: int, minsym: int)
    requires Gathering(trans0, trans, l, |l|, lo, minsym)
    ensures |trans| == |trans0| && AllBelow(l, |trans|)
    ensures forall k :: 0 <= k < |l| ==> CursorAt(trans[l[k]], lo, minsym)
    ensures forall q :: 0 <= q < |trans| && q !in l ==> trans[q] == trans0[q]
  {
  }

  class Splitter {
    const n: nat
    const trans: array<TransArray>
    const memo: array<int>
    const tempMove: array<int>
    const tempGroup: array<int>
    var mainloop: int
    ghost const d: Delta

    ghost predicate Ready()
      reads this, trans, memo
    {
      && trans.Length == memo.Length == tempMove.Length == tempGroup.Length == n
      && memo != tempMove && memo != tempGroup && tempMove != tempGroup
      && DeltaOK(d, n) && InverseOK(trans[..], d) && SymbolsBelow(d, INT_MAX)
      && (forall x :: 0 <= x < n ==> memo[x] < mainloop)
    }

    constructor (n: nat, trans: array<TransArray>, ghost d: Delta)
      requires trans.Length == n && DeltaOK(d, n) && InverseOK(trans[..], d) && SymbolsBelow(d, INT_MAX)
      ensures Ready() && this.n == n && this.trans == trans && this.d == d && fresh(memo) && fresh(tempMove)
              && fresh(tempGroup)
    {
      this.n := n;
      this.trans := trans;
      this.d := d;
      memo := new int[n](_ => 0);
      tempMove := new int[n](_ => 0);
      tempGroup := new int[n](_ => 0);
      mainloop := 1;
    }

    // The state of temp_move and memo_table while one symbol is collected.
    ghost predicate Collecting(j: nat)
      reads this, memo, tempMove
    {
      && memo.Length == tempMove.Length == n && memo != tempMove && j <= n
      && NoDup(tempMove[..j]) && AllBelow(tempMove[..j], n)
      && (forall x :: 0 <= x < n ==> memo[x] <= mainloop && (memo[x] == mainloop <==> x in tempMove[..j]))
    }

    // One source, unless it is there already.
    method Collect(y: int, j: nat) returns (j': nat)
      requires Collecting(j) && 0 <= y < n
      modifies memo, tempMove
      ensures Collecting(j') && Elements(tempMove[..j']) == old(Elements(tempMove[..j])) + {y}
    {
      j' := j;
      ghost var old0 := tempMove[..j];
      if memo[y] != mainloop {
        NoDupBound(old0 + [y], n);
        memo[y] := mainloop;
        tempMove[j'] := y;
        j' := j' + 1;
        assert tempMove[..j'] == old0 + [y];
      }
    }

    // The sources of all arcs into x labelled c; the cursor of x moves past them.
    method CollectState(x: int, c: int, ghost lo: int, j: nat) returns (j': nat)
      requires Collecting(j) && 0 <= x < n == trans.Length && DeltaOK(d, n) && lo < c
      requires SortedBySym(trans[x].transitions) && Incoming(trans[x].transitions, d, x) && CursorAt(trans[x], lo, c)
      modifies memo, tempMove, trans
      ensures Collecting(j')
      ensures forall y :: y in tempMove[..j'] <==> y in old(tempMove[..j]) || ((y, c) in d && d[(y, c)] == x)
      ensures trans[x].transitions == old(trans[x].transitions) && CursorAt(trans[x], c, c + 1)
      ensures forall q :: 0 <= q < n && q != x ==> trans[q] == old(trans[q])
    {
      ghost var m0 := tempMove[..j];
      var tr, from := trans[x].transitions, trans[x].tail;
      var tail := from;
      j' := j;
      while tail < |tr| && tr[tail].sym == c
        invariant from <= tail <= |tr| && Collecting(j') && AllSym(tr, from, tail, c)
        invariant forall y :: y in tempMove[..j'] <==> y in m0 || OtherIn(tr, from, tail, y)
        modifies memo, tempMove
      {
        ghost var m := tempMove[..j'];
        assert tr[tail] in tr;
        j' := Collect(tr[tail].other, j');
        forall y ensures y in tempMove[..j'] <==> y in m0 || OtherIn(tr, from, tail + 1, y) {
          assert y in Elements(tempMove[..j']) <==> y in Elements(m) + {tr[tail].other};
          OtherInNext(tr, from, tail, y);
        }
        tail := tail + 1;
      }
      SymbolRun(tr, from, tail, lo, c);
      trans[x] := TransArray(tr, tail);
    }

    method Visit(x: int, resume: bool, ghost lo: int, minsym: int) returns (minsym': int)
      requires Ready() && 0 <= x < n && -1 <= lo < minsym <= INT_MAX
      requires if resume then CursorAt(trans[x], lo, lo + 1) else lo == -1
      modifies trans
      ensures Ready() && lo < minsym' <= minsym && CursorAt(trans[x], lo, minsym')
      ensures forall q :: 0 <= q < n && q != x ==> trans[q] == old(trans[q])
    {
      if !resume {
        trans[x] := trans[x].(tail := 0);
        StartCursor(trans[x], x, d);
      }
      var tr, tail := trans[x].transitions, trans[x].tail;
      minsym' := minsym;
      if tail < |tr| && tr[tail].sym < minsym' {
        minsym' := tr[tail].sym;
      }
      FirstIsLeast(trans[x], lo, minsym');
    }

    // One state of the block l.
    method GatherState(x: int, size: nat, resume: bool, minsym: int, ghost l: seq<int>, ghost lo: int)
      returns (minsym': int)
      requires Ready() && size < |l| <= n && l[size] == x && 0 <= x < n && tempGroup[..size] == l[..size]
      requires -1 <= lo < minsym <= INT_MAX && if resume then CursorAt(trans[x], lo, lo + 1) else lo == -1
      modifies tempGroup, trans
      ensures Ready() && tempGroup[..size + 1] == l[..size + 1] && lo < minsym' <= minsym
      ensures CursorAt(trans[x], lo, minsym') && forall q :: 0 <= q < n && q != x ==> trans[q] == old(trans[q])
    {
      hide CursorAt, InverseOK, SymbolsBelow;
      assert l[..size + 1] == l[..size] + [x];
      tempGroup[size] := x;
      assert tempGroup[..size + 1] == tempGroup[..size] + [x];
      minsym' := Visit(x, resume, lo, minsym);
    }

    // Copies the block w to temp_group and finds the first symbol to split
    // with; a block that starts afresh gets its cursors reset.
    method Gather(p: Partition, w: int, resume: bool, ghost lo: int) returns (size: nat, minsym: int)
      requires Ready() && p.n == n && p.Linked() && 0 <= w < p.pNext && p.lists[w] != [] && -1 <= lo < INT_MAX
      requires resume ==> forall x :: x in p.lists[w] ==> 0 <= x < n && CursorAt(trans[x], lo, lo + 1)
      requires !resume ==> lo == -1
      modifies tempGroup, trans
      ensures Ready() && size <= n && tempGroup[..size] == p.lists[w] && lo < minsym <= INT_MAX
      ensures AllBelow(p.lists[w], n) && NoDup(p.lists[w])
      ensures forall i :: 0 <= i < size ==> CursorAt(trans[tempGroup[i]], lo, minsym)
      ensures forall q :: 0 <= q < n && q !in p.lists[w] ==> trans[q] == old(trans[q])
    {
      hide LinkOK, AgendaOK, ChainOK, InChain, InvOK, CursorAt, InverseOK, SymbolsBelow, Groups, QueuedFull, NoDup,
           Rights;
      ListFacts(p.E[..], p.P[..], p.lists, w);
      NoDupBound(p.lists[w], n);
      size, minsym := GatherList(p.E, p.P[w].first, resume, p.lists[w], lo);
    }

    // The states of the list l from e on.
    method GatherList(E: array<Elem>, first: int, resume: bool, ghost l: seq<int>, ghost lo: int)
      returns (size: nat, minsym: int)
      requires Ready() && 0 < |l| <= n && AllBelow(l, n) && NoDup(l) && Rights(E[..], l) && first == l[0]
               && -1 <= lo < INT_MAX
      requires resume ==> forall x :: x in l ==> CursorAt(trans[x], lo, lo + 1)
      requires !resume ==> lo == -1
      modifies tempGroup, trans
      ensures Ready() && size <= n && tempGroup[..size] == l && lo < minsym <= INT_MAX
      ensures forall i :: 0 <= i < size ==> CursorAt(trans[tempGroup[i]], lo, minsym)
      ensures forall q :: 0 <= q < n && q !in l ==> trans[q] == old(trans[q])
    {
      hide CursorAt, InverseOK, SymbolsBelow, Gathering, NoDup, Rights;
      ghost var trans0, elems := trans[..], E[..];
      size, minsym := 0, INT_MAX;
      NothingGathered(trans0, l, lo, minsym);
      var e := first;
      while e != NULL
        invariant size <= |l| && e == (if size < |l| then l[size] else NULL) && E[..] == elems
        invariant tempGroup[..size] == l[..size] && Ready() && lo < minsym <= INT_MAX
        invariant Gathering(trans0, trans[..], l, size, lo, minsym)
        decreases |l| - size
      {
        RightOf(elems, l, size);
        ghost var before, least := trans[..], minsym;
        NotGathered(trans0, before, l, size, lo, minsym);
        minsym := GatherState(e, size, resume, minsym, l, lo);
        GatheringNext(trans0, before, trans[..], l, size, lo, least, minsym);
        size := size + 1;
        e := E[e].right;
      }
      AllGathered(trans0, trans[..], l, lo, minsym);
      assert tempGroup[..size] == l;
    }

    // All predecessors under c of the block copied to temp_group, and the next
    // symbol that labels an arc into it.
    method CollectGroup(size: nat, c: int, ghost lo: int) returns (j: nat, nextSym: int)
      requires Ready() && size <= n && AllBelow(tempGroup[..size], n) && NoDup(tempGroup[..size]) && lo < c < INT_MAX
      requires forall i :: 0 <= i < size ==> CursorAt(trans[tempGroup[i]], lo, c)
      modifies memo, tempMove, trans
      ensures Collecting(j) && InverseOK(trans[..], d) && c < nextSym <= INT_MAX
      ensures Gathered(d, tempGroup[..size], c, Elements(tempMove[..j]))
      ensures forall i :: 0 <= i < size ==> CursorAt(trans[tempGroup[i]], c, nextSym)
      ensures forall q :: 0 <= q < n && q !in tempGroup[..size] ==> trans[q] == old(trans[q])
    {
      hide CursorAt, SortedBySym, Incoming, Gathered;
      ghost var grp := tempGroup[..size];
      j, nextSym := 0, INT_MAX;
      assert tempMove[..0] == [];
      GatheredNone(d, c);
      assert grp[..0] == [] && Elements(tempMove[..0]) == {};
      for i := 0 to size
        invariant Collecting(j) && InverseOK(trans[..], d) && c < nextSym <= INT_MAX
        invariant Gathered(d, grp[..i], c, Elements(tempMove[..j]))
        invariant forall k :: 0 <= k < i ==> CursorAt(trans[grp[k]], c, nextSym)
        invariant forall k :: i <= k < size ==> CursorAt(trans[grp[k]], lo, c)
        invariant forall q :: 0 <= q < n && q !in grp[..i] ==> trans[q] == old(trans[q])
      {
        var x := tempGroup[i];
        assert x == grp[i] && grp[..i + 1] == grp[..i] + [x];
        ghost var moves := Elements(tempMove[..j]);
        j := CollectState(x, c, lo, j);
        var tail, tr := trans[x].tail, trans[x].transitions;
        ghost var hi := nextSym;
        CursorInside(trans[x], c, c + 1);
        if tail < |tr| && tr[tail].sym < nextSym {
          BelowMax(trans[x], x, c, d);
          nextSym := tr[tail].sym;
        }
        FirstIsLeast(trans[x], c, nextSym);
        GatheredNext(d, grp[..i], x, c, moves, Elements(tempMove[..j]));
        forall k | 0 <= k < i + 1 ensures CursorAt(trans[grp[k]], c, nextSym) {
          if k < i {
            CursorWeaken(trans[grp[k]], c, hi, nextSym);
          }
        }
      }
      assert grp[..size] == grp;
    }
  }

  lemma StartCursor(t: TransArray, x: int, d: Delta)
    requires Incoming(t.transitions, d, x) && (forall k :: k in d ==> 0 <= k.1) && t.tail == 0
    ensures CursorAt(t, -1, 0)
  {
    forall k | 0 <= k < |t.transitions| ensures t.transitions[k].sym >= 0 {
      assert t.transitions[k] in t.transitions;
    }
  }

  // Every state of the list leads to the next one.
  ghost predicate Rights(E: seq<Elem>, l: seq<int>) {
    forall k :: 0 <= k < |l| ==> 0 <= l[k] < |E| && E[l[k]].right == if k + 1 < |l| then l[k + 1] else NULL
  }

  lemma RightOf(E: seq<Elem>, l: seq<int>, k: nat)
    requires Rights(E, l) && k < |l|
    ensures 0 <= l[k] < |E| && E[l[k]].right == if k + 1 < |l| then l[k + 1] else NULL
  {
  }

  lemma ListFacts(E: seq<Elem>, P: seq<Block>, lists: seq<seq<int>>, w: int)
    requires LinkOK(E, P, lists) && 0 <= w < |lists| && lists[w] != []
    ensures AllBelow(lists[w], |E|) && NoDup(lists[w]) && P[w].first == lists[w][0] && Rights(E, lists[w])
  {
    assert ListOK(E, P, lists[w], w);
    forall k | 0 <= k < |lists[w]|
      ensures 0 <= lists[w][k] < |E|
              && E[lists[w][k]].right == if k + 1 < |lists[w]| then lists[w][k + 1] else NULL {
      LinksAt(E, P, lists[w], w, k);
    }
  }

  lemma BelowMax(t: TransArray, x: int, c: int, d: Delta)
    requires Incoming(t.transitions, d, x) && SymbolsBelow(d, INT_MAX) && t.tail < |t.transitions|
    ensures t.transitions[t.tail].sym < INT_MAX
  {
    assert t.transitions[t.tail] in t.transitions;
  }

  lemma GatheredNone(d: Delta, c: int)
    ensures Gathered(d, [], c, {})
  {
  }

  lemma GatheredNext(d: Delta, grp: seq<int>, x: int, c: int, moves: set<int>, moves': set<int>)
    requires Gathered(d, grp, c, moves)
    requires forall y :: y in moves' <==> y in moves || ((y, c) in d && d[(y, c)] == x)
    ensures Gathered(d, grp + [x], c, moves')
  {
  }
}
