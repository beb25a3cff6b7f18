// init_state_pointers (constructions.c): flags and first line of every state,
// for tables whose lines are grouped by state.  Tables end in the sentinel.

module Pointers {
  import opened Nets

  datatype StateArr = StateArr(final: bool, start: bool, first: nat)

  // A line without a target is the only line of its state.
  ghost predicate LoneFlags(t: seq<Line>) {
    forall i, j :: 0 <= i < |t| && 0 <= j < |t| && t[i].state == t[j].state && t[i].target == -1 ==> i == j
  }

  // No arc is in the table twice.
  ghost predicate DistinctLines(t: seq<Line>) {
    forall i, j :: 0 <= i < j < |t| && t[i].target != -1 && t[j].target != -1 ==> LineArc(t[i]) != LineArc(t[j])
  }

  // A net as the product constructions read it.
  ghost predicate IsNet(t: seq<Line>, n: nat) {
    IsTable(t, n) && Grouped(t) && LoneFlags(t) && n > 0
  }

  ghost predicate PointsAt(point: seq<StateArr>, t: seq<Line>, q: int)
    requires 0 <= q < |point|
  {
    && point[q].first < |t| && t[point[q].first].state == q
    && (forall i :: 0 <= i < point[q].first ==> t[i].state != q)
  }

  ghost predicate PointersOK(point: seq<StateArr>, t: seq<Line>, n: nat) {
    && |point| == n
    && (forall q :: 0 <= q < n ==> PointsAt(point, t, q))
    && (forall q :: 0 <= q < n ==> (point[q].final <==> q in FinalsOf(t)) && (point[q].start <==> q in StartsOf(t)))
  }

  // The state of the loop after i lines.
  ghost predicate Pointing(point: seq<StateArr>, t: seq<Line>, n: nat, i: nat)
    requires i <= |t|
  {
    && |point| == n
    && (forall q :: 0 <= q < n && HasLine(t[..i], q) ==> PointsAt(point, t, q))
    && (forall q :: 0 <= q < n ==> (point[q].final <==> q in FinalsOf(t[..i]))
                                   && (point[q].start <==> q in StartsOf(t[..i])))
  }

  lemma NothingPointed(t: seq<Line>, n: nat)
    ensures Pointing(seq(n, _ => StateArr(false, false, 0)), t, n, 0)
  {
    assert FinalsOf(t[..0]) == {} && StartsOf(t[..0]) == {};
  }

  lemma PointLine(point: seq<StateArr>, t: seq<Line>, n: nat, i: nat, sold: int, point': seq<StateArr>)
    requires IsTable(t, n) && Grouped(t) && i < |t| && Pointing(point, t, n, i)
             && sold == (if i == 0 then -1 else t[i - 1].state)
    requires |point'| == n && (forall q :: 0 <= q < n && q != t[i].state ==> point'[q] == point[q])
    requires 0 <= t[i].state < n
    requires point'[t[i].state] == StateArr(point[t[i].state].final || t[i].final, point[t[i].state].start
                                            || t[i].start,
                                            if t[i].state != sold then i else point[t[i].state].first)
    ensures Pointing(point', t, n, i + 1)
  {
    hide Grouped;
    var s, u := t[i].state, t[..i + 1];
    assert u == t[..i] + [t[i]];
    FinalsSnoc(t[..i], t[i]);
    StartsSnoc(t[..i], t[i]);
    FirstOfRun(t, i);
    if s == sold {
      assert t[..i][i - 1].state == s;
      assert HasLine(t[..i], s);
    }
    forall q | 0 <= q < n && HasLine(u, q) ensures PointsAt(point', t, q) {
      if q != s {
        var j :| 0 <= j < |u| && u[j].state == q;
        assert t[..i][j].state == q;
        assert PointsAt(point, t, q);
      }
    }
  }

  lemma FirstOfRun(t: seq<Line>, i: nat)
    requires Grouped(t) && i < |t|
    ensures i == 0 || t[i].state != t[i - 1].state ==> forall j :: 0 <= j < i ==> t[j].state != t[i].state
  {
    if i > 0 && t[i].state != t[i - 1].state {
      forall j | 0 <= j < i ensures t[j].state != t[i].state {
        assert j == i - 1 || j < i - 1 < i;
      }
    }
  }

  method InitStatePointers(t: seq<Line>, n: nat) returns (point: seq<StateArr>)
    requires IsTable(t, n) && Grouped(t)
    ensures PointersOK(point, t, n)
  {
    hide Pointing, Grouped, IsTable;
    TableLines(t, n);
    point := seq(n, _ => StateArr(false, false, 0));
    var sold := -1;
    NothingPointed(t, n);
    for i := 0 to |t|
      invariant |point| == n && Pointing(point, t, n, i) && sold == if i == 0 then -1 else t[i - 1].state
    {
      var l := t[i];
      ghost var before := point;
      assert LineOK(l, n);
      if l.final {
        point := point[l.state := point[l.state].(final := true)];
      }
      if l.start {
        point := point[l.state := point[l.state].(start := true)];
      }
      ghost var last := sold;
      if l.state != sold {
        point := point[l.state := point[l.state].(first := i)];
        sold := l.state;
      }
      PointLine(before, t, n, i, last, point);
    }
    AllPointed(point, t, n);
  }

  lemma AllPointed(point: seq<StateArr>, t: seq<Line>, n: nat)
    requires IsTable(t, n) && Pointing(point, t, n, |t|)
    ensures PointersOK(point, t, n)
  {
    assert t[..|t|] == t;
  }

  // ---- Walking over the lines of one state ----

  // The arcs of lines lo..hi.
  ghost function ArcsIn(t: seq<Line>, lo: nat, hi: nat): set<Arc>
    requires lo <= hi <= |t|
  {
    set i | lo <= i < hi && t[i].target != -1 :: LineArc(t[i])
  }

  ghost function ArcsAt(arcs: set<Arc>, q: int): set<Arc> {
    set a | a in arcs && a.src == q
  }

  // i is between the first line of q and the first line after those of q.
  ghost predicate OnRow(t: seq<Line>, first: nat, i: nat, q: int) {
    && first <= i <= |t| && (forall k :: first <= k < i ==> t[k].state == q)
    && (forall k :: 0 <= k < first ==> t[k].state != q)
  }

  lemma Between(t: seq<Line>, i: nat, j: nat, k: nat)
    requires Grouped(t) && i < j < k < |t| && t[i].state == t[k].state
    ensures t[j].state == t[i].state
  {
  }

  lemma RowDone(t: seq<Line>, first: nat, i: nat, q: int)
    requires OnRow(t, first, i, q) && first < i && Grouped(t) && (i < |t| ==> t[i].state != q)
    ensures ArcsIn(t, first, i) == ArcsAt(ArcsOf(t), q)
  {
    hide Grouped;
    forall a | a in ArcsAt(ArcsOf(t), q) ensures a in ArcsIn(t, first, i) {
      var k :| 0 <= k < |t| && t[k].target != -1 && LineArc(t[k]) == a;
      if k > i {
        Between(t, first, i, k);
      }
    }
    forall a | a in ArcsIn(t, first, i) ensures a in ArcsAt(ArcsOf(t), q) {
      var k :| first <= k < i && t[k].target != -1 && LineArc(t[k]) == a;
    }
  }

  // The lines of q are those from first up to i.
  lemma RowAll(t: seq<Line>, n: nat, first: nat, i: nat, q: int)
    requires IsNet(t, n) && OnRow(t, first, i, q) && first < |t| && t[first].state == q && (i < |t| ==> t[i].state != q)
    ensures forall k :: 0 <= k < |t| ==> (t[k].state == q <==> first <= k < i)
  {
    hide Grouped;
    forall k | i <= k < |t| ensures t[k].state != q {
      if k > i && t[k].state == q {
        Between(t, first, i, k);
      }
    }
  }

  lemma RowStart(t: seq<Line>, point: seq<StateArr>, n: nat, q: int)
    requires PointersOK(point, t, n) && 0 <= q < n
    ensures |point| == n && point[q].first < |t| && t[point[q].first].state == q
    ensures OnRow(t, point[q].first, point[q].first, q) && ArcsIn(t, point[q].first, point[q].first) == {}
  {
    assert PointsAt(point, t, q);
  }

  lemma RowNext(t: seq<Line>, first: nat, i: nat, q: int)
    requires OnRow(t, first, i, q) && i < |t| && t[i].state == q
    ensures OnRow(t, first, i + 1, q)
    ensures ArcsIn(t, first, i + 1) == ArcsIn(t, first, i) + (if t[i].target == -1 then {} else {LineArc(t[i])})
  {
    var all := ArcsIn(t, first, i + 1);
    forall a | a in all ensures a in ArcsIn(t, first, i) || (t[i].target != -1 && a == LineArc(t[i])) {
      var k :| first <= k < i + 1 && t[k].target != -1 && LineArc(t[k]) == a;
    }
  }

  // A row with a flag line has no arcs.
  lemma RowWithoutArcs(t: seq<Line>, i: nat, q: int)
    requires LoneFlags(t) && i < |t| && t[i].state == q && t[i].target == -1
    ensures ArcsAt(ArcsOf(t), q) == {}
  {
    forall k | 0 <= k < |t| && t[k].target != -1 ensures LineArc(t[k]).src != q {
      assert k != i;
    }
  }

  lemma NetLines(t: seq<Line>, n: nat)
    requires IsNet(t, n)
    ensures IsTable(t, n) && Grouped(t) && Closed(Meaning(t, n)) && forall i :: 0 <= i < |t| ==> LineOK(t[i], n)
  {
    TableIsClosed(t, n);
  }

  lemma NetRow(t: seq<Line>, n: nat, first: nat, i: nat, q: int)
    requires IsNet(t, n) && OnRow(t, first, i, q) && first < |t| && t[first].state == q && (i < |t| ==> t[i].state != q)
    ensures ArcsIn(t, first, i) == ArcsAt(ArcsOf(t), q)
  {
    RowDone(t, first, i, q);
  }

  lemma RowPart(t: seq<Line>, first: nat, i: nat, q: int)
    requires OnRow(t, first, i, q)
    ensures ArcsIn(t, first, i) <= ArcsAt(ArcsOf(t), q)
  {
    forall a | a in ArcsIn(t, first, i) ensures a in ArcsAt(ArcsOf(t), q) {
      var k :| first <= k < i && t[k].target != -1 && LineArc(t[k]) == a;
    }
  }

  // The end of a row, or its one line without an arc.
  lemma RowEnds(t: seq<Line>, n: nat, first: nat, i: nat, q: int)
    requires IsNet(t, n) && OnRow(t, first, i, q) && first < |t| && t[first].state == q
    requires i < |t| && t[i].state == q ==> t[i].target == -1
    ensures ArcsIn(t, first, i) == ArcsAt(ArcsOf(t), q)
  {
    if i < |t| && t[i].state == q {
      RowWithoutArcs(t, i, q);
      RowPart(t, first, i, q);
    } else {
      NetRow(t, n, first, i, q);
    }
  }

  lemma LineIsArc(t: seq<Line>, i: nat)
    requires i < |t| && t[i].target != -1
    ensures LineArc(t[i]) in ArcsAt(ArcsOf(t), t[i].state) && LineArc(t[i]) in ArcsOf(t)
  {
  }

  // The first line of q with letter l, if any.
  method FindArc(t: seq<Line>, n: nat, point: seq<StateArr>, q: int, l: Letter) returns (found: bool, target: int)
    requires IsNet(t, n) && PointersOK(point, t, n) && 0 <= q < n && l.inp >= 0
    ensures found ==> Arc(q, l, target) in ArcsOf(t)
    ensures !found ==> forall r :: Arc(q, l, r) !in ArcsOf(t)
  {
    hide IsNet, PointersOK, ArcsOf, ArcsIn, Grouped, IsTable;
    NetLines(t, n);
    RowStart(t, point, n, q);
    var first := point[q].first;
    var i := first;
    found, target := false, -1;
    while i < |t| && t[i].state == q
      invariant OnRow(t, first, i, q) && forall r :: Arc(q, l, r) !in ArcsIn(t, first, i)
      invariant first < |t| && t[first].state == q
    {
      RowNext(t, first, i, q);
      assert LineOK(t[i], n);
      if t[i].inp == l.inp && t[i].outp == l.outp {
        LineIsArc(t, i);
        return true, t[i].target;
      }
      i := i + 1;
    }
    NetRow(t, n, first, i, q);
    forall r ensures Arc(q, l, r) !in ArcsOf(t) {
      assert Arc(q, l, r) in ArcsOf(t) ==> Arc(q, l, r) in ArcsAt(ArcsOf(t), q);
    }
  }
}
