// generate_inverse (minimize.c): for every state the incoming arcs, sorted by
// symbol number, with a cursor (tail) that remembers how far the state has
// been used as part of a splitter.

module Inverse {
  import opened Nets
  import opened Blocks
  import opened Splitters
  import opened Symbols
  import opened Transitions
  import opened Refine

  // tr lists the arcs of d that end in state q.
  ghost predicate Incoming(tr: seq<Trans>, d: Delta, q: int) {
    forall x :: x in tr <==> (x.other, x.sym) in d && d[(x.other, x.sym)] == q
  }

  ghost predicate InverseOK(tr: seq<TransArray>, d: Delta) {
    forall q :: 0 <= q < |tr| ==> SortedBySym(tr[q].transitions) && Incoming(tr[q].transitions, d, q)
  }

  // The successor function of the first k lines.
  ghost function DeltaOf(t: seq<Line>, num: map<Letter, int>, k: nat): Delta
    requires k <= |t|
  {
    if k == 0 then map[]
    else
      var l := LineArc(t[k - 1]);
      var d := DeltaOf(t, num, k - 1);
      if t[k - 1].target != -1 && l.letter in num then d[(l.src, num[l.letter]) := l.dst] else d
  }

  ghost predicate Holds(d: Delta, num: map<Letter, int>, l: Line) {
    var a := LineArc(l);
    a.letter in num && (a.src, num[a.letter]) in d && d[(a.src, num[a.letter])] == a.dst
  }

  lemma {:induction false} DeltaHolds(t: seq<Line>, num: map<Letter, int>, pairs: seq<Letter>, i: nat, k: nat)
    requires i < k <= |t| && t[i].target != -1 && Functional(ArcsOf(t)) && Numbering(num, pairs)
    requires forall l :: l in num <==> Labels(t, |t|, l)
    ensures Holds(DeltaOf(t, num, k), num, t[i])
    decreases k
  {
    var a, b := LineArc(t[i]), LineArc(t[k - 1]);
    assert Labels(t, |t|, a.letter);
    if i < k - 1 {
      DeltaHolds(t, num, pairs, i, k - 1);
      if t[k - 1].target != -1 && b.letter in num && a.src == b.src && num[a.letter] == num[b.letter] {
        assert a.letter == b.letter;
        assert a in ArcsOf(t) && b in ArcsOf(t);
      }
    }
  }

  lemma {:induction false} DeltaKeys(t: seq<Line>, num: map<Letter, int>, pairs: seq<Letter>, k: nat, key: (int, int))
    requires k <= |t| && Numbering(num, pairs) && key in DeltaOf(t, num, k)
    ensures 0 <= key.1 < |pairs| && Arc(key.0, pairs[key.1], DeltaOf(t, num, k)[key]) in ArcsOf(t)
    decreases k
  {
    var l := LineArc(t[k - 1]);
    if t[k - 1].target != -1 && l.letter in num && key == (l.src, num[l.letter]) {
      assert l in ArcsOf(t);
    } else {
      DeltaKeys(t, num, pairs, k - 1, key);
    }
  }

  lemma DeltaNext(t: seq<Line>, n: nat, num: map<Letter, int>, pairs: seq<Letter>, p: int, l: Letter)
    requires IsTable(t, n) && Functional(ArcsOf(t)) && Numbering(num, pairs)
    requires forall l :: l in num <==> Labels(t, |t|, l)
    ensures Next(ArcsOf(t), p, l) == if l in num then Succ(DeltaOf(t, num, |t|), p, num[l]) else -1
  {
    hide IsTable, Functional;
    var d, q := DeltaOf(t, num, |t|), Next(ArcsOf(t), p, l);
    if l in num && (p, num[l]) in d {
      DeltaKeys(t, num, pairs, |t|, (p, num[l]));
      TargetsProper(t, n, Arc(p, l, d[(p, num[l])]));
    }
    if q != -1 {
      var i :| 0 <= i < |t| && t[i].target != -1 && LineArc(t[i]) == Arc(p, l, q);
      DeltaHolds(t, num, pairs, i, |t|);
    }
  }

  lemma TargetsProper(t: seq<Line>, n: nat, a: Arc)
    requires IsTable(t, n) && a in ArcsOf(t)
    ensures a.dst != -1
  {
  }

  lemma DeltaEncodes(t: seq<Line>, n: nat, num: map<Letter, int>, pairs: seq<Letter>)
    requires IsTable(t, n) && Functional(ArcsOf(t)) && Numbering(num, pairs)
    requires forall l :: l in num <==> Labels(t, |t|, l)
    ensures Encodes(Meaning(t, n), num, DeltaOf(t, num, |t|))
    ensures forall key :: key in DeltaOf(t, num, |t|) ==> key.1 < |pairs|
  {
    var d, m := DeltaOf(t, num, |t|), Meaning(t, n);
    TableIsClosed(t, n);
    forall key | key in d ensures 0 <= key.0 < n && 0 <= key.1 < |pairs| && 0 <= d[key] < n && pairs[key.1] in num
        && num[pairs[key.1]] == key.1 {
      DeltaKeys(t, num, pairs, |t|, key);
      assert Arc(key.0, pairs[key.1], d[key]) in m.arcs;
    }
    forall p, l ensures Next(m.arcs, p, l) == if l in num then Succ(d, p, num[l]) else -1 {
      DeltaNext(t, n, num, pairs, p, l);
    }
  }

  lemma {:induction false} WeightBump(inv: seq<nat>, q: nat, s: set<int>, k: nat)
    requires k <= |inv| && q < |inv|
    ensures Weight(inv[q := inv[q] + 1], s, k) == Weight(inv, s, k) + (if q < k && q in s then 1 else 0)
    decreases k
  {
    if k > 0 {
      WeightBump(inv, q, s, k - 1);
    }
  }

  // How many of the first k lines are arcs into q.
  ghost function ArcsInto(t: seq<Line>, q: int, k: nat): nat
    requires k <= |t|
  {
    if k == 0 then 0 else ArcsInto(t, q, k - 1) + (if t[k - 1].target == q then 1 else 0)
  }

  // One more arc into q.
  method CountArc(p: Partition, q: nat)
    requires p.Linked() && p.Settled() && q < p.n
    modifies p`inv, p.E, p.P
    ensures p.Linked() && p.Settled() && p.inv == old(p.inv)[q := old(p.inv[q]) + 1]
    ensures forall x :: 0 <= x < p.n ==> p.E[x].group == old(p.E[x].group)
    ensures forall b :: 0 <= b < p.P.Length ==> SameLinks(p.P[b], old(p.P[b]))
  {
    hide LinkOK, AgendaOK, ChainOK, CountOK, Quiet;
    ghost var e0, p0, inv0 := p.E[..], p.P[..], p.inv;
    var g := p.E[q].group;
    GroupsInRange(e0, p0, p.lists);
    p.E[q] := p.E[q].(inv := p.E[q].inv + 1);
    p.P[g] := p.P[g].(inv := p.P[g].inv + 1);
    p.inv := p.inv[q := p.inv[q] + 1];
    LinkInv(e0, p0, p.lists, q, p.E[..]);
    p.CoreFrame(p0, p.P[..]);
    assert Groups(p.E[..]) == Groups(e0);
    forall b | 0 <= b < p.pNext ensures CountOK(p.E[..], p.P[..], b, p.inv) && Quiet(p.P[b]) {
      assert CountOK(e0, p0, b, inv0) && Quiet(p0[b]);
      Bumped(e0, p0, inv0, q, g, p.E[..], p.P[..], b);
    }
  }

  // One more incoming arc counts for the block of q alone.
  lemma Bumped(e0: seq<Elem>, p0: seq<Block>, inv0: seq<nat>, q: nat, g: int, e1: seq<Elem>, p1: seq<Block>, b: int)
    requires q < |e0| == |inv0| && e0[q].group == g && 0 <= g < |p0| && 0 <= b < |p0|
    requires e1 == e0[q := e0[q].(inv := e0[q].inv + 1)] && p1 == p0[g := p0[g].(inv := p0[g].inv + 1)]
    requires CountOK(e0, p0, b, inv0) && Quiet(p0[b])
    ensures CountOK(e1, p1, b, inv0[q := inv0[q] + 1]) && Quiet(p1[b])
  {
    assert Members(e1, b) == Members(e0, b);
    WeightBump(inv0, q, Members(e0, b), |e0|);
  }

  lemma LinkInv(E: seq<Elem>, P: seq<Block>, lists: seq<seq<int>>, q: nat, E': seq<Elem>)
    requires LinkOK(E, P, lists) && q < |E| && E' == E[q := E[q].(inv := E[q].inv + 1)]
    ensures LinkOK(E', P, lists)
  {
    forall b | 0 <= b < |lists| ensures ListOK(E', P, lists[b], b) {
      assert ListOK(E, P, lists[b], b);
    }
  }

  // The arcs of the first k lines, each filed under its target.
  ghost predicate Filed(t: seq<Line>, num: map<Letter, int>, k: nat, tr: seq<TransArray>)
    requires k <= |t|
  {
    forall q :: 0 <= q < |tr| ==> Incoming(tr[q].transitions, DeltaOf(t, num, k), q)
  }

  method GenerateInverse(p: Partition, trans: array<TransArray>, t: seq<Line>, num: map<Letter, int>,
                         ghost pairs: seq<Letter>)
    requires p.Linked() && p.Settled() && trans.Length == p.n && forall x :: 0 <= x < p.n ==> p.inv[x] == 0
    requires forall q :: 0 <= q < p.n ==> trans[q] == TransArray([], 0)
    requires IsTable(t, p.n) && Functional(ArcsOf(t)) && Numbering(num, pairs)
    requires forall l :: l in num <==> Labels(t, |t|, l)
    modifies p`inv, p.E, p.P, trans
    ensures p.Linked() && p.Settled()
    ensures forall x :: 0 <= x < p.n ==> p.inv[x] == ArcsInto(t, x, |t|) == |trans[x].transitions|
    ensures forall x :: 0 <= x < p.n ==> p.E[x].group == old(p.E[x].group)
    ensures forall b :: 0 <= b < p.P.Length ==> SameLinks(p.P[b], old(p.P[b]))
    ensures InverseOK(trans[..], DeltaOf(t, num, |t|))
  {
    CountArcs(p, t);
    FileArcs(trans, t, num, pairs, p.n);
    SortArcs(trans, DeltaOf(t, num, |t|));
  }

  method CountArcs(p: Partition, t: seq<Line>)
    requires p.Linked() && p.Settled() && forall x :: 0 <= x < p.n ==> p.inv[x] == 0
    requires IsTable(t, p.n)
    modifies p`inv, p.E, p.P
    ensures p.Linked() && p.Settled()
    ensures forall x :: 0 <= x < p.n ==> p.inv[x] == ArcsInto(t, x, |t|)
    ensures forall x :: 0 <= x < p.n ==> p.E[x].group == old(p.E[x].group)
    ensures forall b :: 0 <= b < p.P.Length ==> SameLinks(p.P[b], old(p.P[b]))
  {
    hide LinkOK, AgendaOK, ChainOK, CountOK, InChain;
    for i := 0 to |t|
      invariant p.Linked() && p.Settled()
      invariant forall x :: 0 <= x < p.n ==> p.inv[x] == ArcsInto(t, x, i)
      invariant forall x :: 0 <= x < p.n ==> p.E[x].group == old(p.E[x].group)
      invariant forall b :: 0 <= b < p.P.Length ==> SameLinks(p.P[b], old(p.P[b]))
    {
      assert LineOK(t[i], p.n);
      if t[i].target != -1 {
        CountArc(p, t[i].target);
      }
    }
  }

  method FileArcs(trans: array<TransArray>, t: seq<Line>, num: map<Letter, int>, ghost pairs: seq<Letter>, n: nat)
    requires trans.Length == n && forall q :: 0 <= q < n ==> trans[q] == TransArray([], 0)
    requires IsTable(t, n) && Functional(ArcsOf(t)) && Numbering(num, pairs)
    requires forall l :: l in num <==> Labels(t, |t|, l)
    modifies trans
    ensures forall q :: 0 <= q < n ==> |trans[q].transitions| == ArcsInto(t, q, |t|)
    ensures Filed(t, num, |t|, trans[..])
  {
    for i := 0 to |t|
      invariant forall q :: 0 <= q < n ==> |trans[q].transitions| == trans[q].tail == ArcsInto(t, q, i)
      invariant Filed(t, num, i, trans[..])
    {
      var l := t[i];
      assert LineOK(l, n);
      if l.target != -1 {
        ghost var tr := trans[..];
        assert Labels(t, |t|, LineArc(l).letter);
        var x := Trans(num[Letter(l.inp, l.outp)], l.state);
        var a := trans[l.target];
        trans[l.target] := TransArray(a.transitions + [x], a.tail + 1);
        FiledNext(t, num, pairs, i, tr, x, trans[..]);
      } else {
        assert DeltaOf(t, num, i + 1) == DeltaOf(t, num, i);
      }
    }
  }

  lemma FiledNext(t: seq<Line>, num: map<Letter, int>, pairs: seq<Letter>, i: nat, tr: seq<TransArray>, x: Trans,
                  tr': seq<TransArray>)
    requires i < |t| && t[i].target != -1 && 0 <= t[i].target < |tr| == |tr'| && LineArc(t[i]).letter in num
    requires Functional(ArcsOf(t)) && Numbering(num, pairs)
    requires Filed(t, num, i, tr) && x == Trans(num[LineArc(t[i]).letter], t[i].state)
    requires forall q :: 0 <= q < |tr| ==>
      tr'[q].transitions == if q == t[i].target then tr[q].transitions + [x] else tr[q].transitions
    ensures Filed(t, num, i + 1, tr')
  {
    var d, d' := DeltaOf(t, num, i), DeltaOf(t, num, i + 1);
    var key := (x.other, x.sym);
    assert d' == d[key := t[i].target];
    if key in d {
      DeltaKeys(t, num, pairs, i, key);
      assert Arc(key.0, pairs[key.1], d[key]) in ArcsOf(t) && LineArc(t[i]) in ArcsOf(t);
      assert d[key] == t[i].target;
    }
    forall q | 0 <= q < |tr'| ensures Incoming(tr'[q].transitions, d', q) {
      assert Incoming(tr[q].transitions, d, q);
      forall y ensures y in tr'[q].transitions <==> (y.other, y.sym) in d' && d'[(y.other, y.sym)] == q {
        if (y.other, y.sym) == key {
          assert y == x;
        }
      }
    }
  }

  method SortArcs(trans: array<TransArray>, ghost d: Delta)
    requires forall q :: 0 <= q < trans.Length ==> Incoming(trans[q].transitions, d, q)
    modifies trans
    ensures InverseOK(trans[..], d)
    ensures forall q :: 0 <= q < trans.Length ==> |trans[q].transitions| == old(|trans[q].transitions|)
  {
    hide Sorted, SortedBySym, Incoming;
    for i := 0 to trans.Length
      invariant forall q :: 0 <= q < i ==> SortedBySym(trans[q].transitions) && Incoming(trans[q].transitions, d, q)
      invariant forall q :: 0 <= q < i ==> |trans[q].transitions| == old(|trans[q].transitions|)
      invariant forall q :: i <= q < trans.Length ==> trans[q] == old(trans[q])
    {
      var a := trans[i];
      SortedIncoming(a.transitions, d, i);
      if |a.transitions| > 1 {
        trans[i] := a.(transitions := Sorted(a.transitions));
      }
    }
    RowsInverse(trans[..], d);
  }

  lemma RowsInverse(rows: seq<TransArray>, d: Delta)
    requires forall q :: 0 <= q < |rows| ==> SortedBySym(rows[q].transitions) && Incoming(rows[q].transitions, d, q)
    ensures InverseOK(rows, d)
  {
    hide SortedBySym, Incoming;
  }

  // Sorting keeps the arcs.
  lemma SortedIncoming(l: seq<Trans>, d: Delta, q: int)
    requires Incoming(l, d, q)
    ensures Incoming(Sorted(l), d, q) && SortedBySym(Sorted(l)) && |Sorted(l)| == |l| && (|l| <= 1 ==> SortedBySym(l))
  {
    SortedIsSorted(l);
    assert |Sorted(l)| == |multiset(Sorted(l))| == |l|;
  }
}
