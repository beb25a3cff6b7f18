// fsm_coaccessible (coaccessible.c): backward search from the final states,
// then the line table is compacted in place and the states renumbered.

module Coaccessible {
  import opened Nets
  import opened Counting
  import opened Pruning

  // ---- Backward search ----

  ghost predicate ArcTo(t: seq<Line>, k: nat, s: int, q: int)
    requires k <= |t|
  {
    exists i :: 0 <= i < k && t[i].target == q && t[i].state == s && q != -1 && s != q
  }

  // inverses[q] lists the states with an arc to q, other than q.
  ghost predicate Inverted(inverses: seq<seq<int>>, t: seq<Line>, k: nat, n: nat)
    requires k <= |t|
  {
    |inverses| == n && forall q, s :: 0 <= q < n ==> (s in inverses[q] <==> ArcTo(t, k, s, q))
  }

  // A list cell is the head entry followed by the newest entries first.
  function InsertInverse(list: seq<int>, s: int): (r: seq<int>)
    ensures forall x :: x in r <==> x in list || x == s
  {
    if list == [] then [s]
    else
      assert list == [list[0]] + list[1..];
      [list[0], s] + list[1..]
  }

  lemma ArcToNext(t: seq<Line>, i: nat, s: int, q: int)
    requires i < |t|
    ensures ArcTo(t, i + 1, s, q) <==> ArcTo(t, i, s, q) || (t[i].target == q && t[i].state == s && q != -1 && s != q)
  {
    if ArcTo(t, i + 1, s, q) {
      var k :| 0 <= k < i + 1 && t[k].target == q && t[k].state == s;
    }
  }

  method Invert(t: seq<Line>, n: nat) returns (inverses: seq<seq<int>>)
    requires IsTable(t, n)
    ensures Inverted(inverses, t, |t|, n)
  {
    TableLines(t, n);
    hide IsTable;
    inverses := seq(n, _ => []);
    for i := 0 to |t|
      invariant Inverted(inverses, t, i, n)
    {
      ghost var before := inverses;
      assert LineOK(t[i], n);
      if t[i].target != -1 && t[i].state != t[i].target {
        inverses := inverses[t[i].target := InsertInverse(inverses[t[i].target], t[i].state)];
      }
      forall q, s | 0 <= q < n ensures s in inverses[q] <==> ArcTo(t, i + 1, s, q) {
        ArcToNext(t, i, s, q);
        assert s in before[q] <==> ArcTo(t, i, s, q);
      }
    }
  }

  ghost function Marked(co: seq<bool>): set<int> {
    set q | 0 <= q < |co| && co[q]
  }

  ghost predicate AllMarked(co: seq<bool>, list: seq<int>) {
    forall s :: s in list ==> 0 <= s < |co| && co[s]
  }

  // Everything marked leads to a final state; what is marked and not on the
  // stack has its predecessors marked, of state but (if not -1) the first k.
  ghost predicate Searching(co: seq<bool>, stack: seq<int>, m: Net, inverses: seq<seq<int>>, but: int, k: nat) {
    && |co| == |inverses| == m.states
    && (forall q :: 0 <= q < |co| && co[q] ==> Productive(m, q))
    && (forall q :: q in stack ==> 0 <= q < |co| && co[q])
    && (forall q :: 0 <= q < |co| && co[q] && q !in stack && q != but ==> AllMarked(co, inverses[q]))
    && (but != -1 ==> 0 <= but < |co| && co[but] && k <= |inverses[but]|
                      && forall i :: 0 <= i < k ==> 0 <= inverses[but][i] < |co| && co[inverses[but][i]])
  }

  lemma PredecessorProductive(t: seq<Line>, n: nat, s: int, q: int)
    requires IsTable(t, n) && ArcTo(t, |t|, s, q) && Productive(Meaning(t, n), q)
    ensures Productive(Meaning(t, n), s) && 0 <= s < n
  {
    var m := Meaning(t, n);
    var i :| 0 <= i < |t| && t[i].target == q && t[i].state == s && q != -1;
    assert LineOK(t[i], n) && LineArc(t[i]) in m.arcs;
    var f :| f in m.finals && Reaches(m.arcs, q, f);
    var path :| Path(m.arcs, q, path, f);
    assert ([LineArc(t[i])] + path)[1..] == path;
    assert Path(m.arcs, s, [LineArc(t[i])] + path, f);
    assert Reaches(m.arcs, s, f);
  }

  // A closed set with the final states holds everything productive.
  lemma {:induction false} ClosedBackward(t: seq<Line>, n: nat, co: seq<bool>, inverses: seq<seq<int>>, p: int,
                                          path: seq<Arc>, f: int)
    requires IsTable(t, n) && Inverted(inverses, t, |t|, n) && Searching(co, [], Meaning(t, n), inverses, -1, 0)
    requires 0 <= p < n && Path(ArcsOf(t), p, path, f) && 0 <= f < n && co[f]
    ensures co[p]
    decreases path
  {
    if path != [] {
      var a := path[0];
      var i :| 0 <= i < |t| && t[i].target != -1 && LineArc(t[i]) == a;
      assert LineOK(t[i], n);
      ClosedBackward(t, n, co, inverses, a.dst, path[1..], f);
      if a.src != a.dst {
        assert ArcTo(t, |t|, a.src, a.dst);
        assert a.src in inverses[a.dst];
      }
    }
  }

  // "Push & mark finals".
  method MarkFinals(t: seq<Line>, n: nat, ghost inverses: seq<seq<int>>)
    returns (co: seq<bool>, stack: seq<int>, markcount: nat)
    requires IsTable(t, n) && Inverted(inverses, t, |t|, n)
    ensures Searching(co, stack, Meaning(t, n), inverses, -1, 0) && markcount == |Marked(co)|
    ensures Marked(co) == FinalsOf(t) && forall q :: 0 <= q < n && co[q] ==> q in stack
  {
    hide IsTable, Inverted, FinalsOf, Searching, Marked;
    co, stack, markcount := seq(n, _ => false), [], 0;
    NoLines(t[..0]);
    NoneMarked(n);
    for i := 0 to |t|
      invariant |co| == n && Marked(co) == FinalsOf(t[..i]) && markcount == |Marked(co)|
      invariant forall q :: q in stack <==> 0 <= q < n && co[q]
    {
      TableLine(t, n, i);
      assert t[..i + 1] == t[..i] + [t[i]];
      FinalsSnoc(t[..i], t[i]);
      var s := t[i].state;
      IsMarked(co, s);
      if t[i].final && !co[s] {
        MarkOne(co, s);
        Pushed(stack, s);
        stack := stack + [s];
        co := co[s := true];
        markcount := markcount + 1;
      }
    }
    assert t[..|t|] == t;
    StartSearch(t, n, co, stack, inverses);
  }

  lemma StartSearch(t: seq<Line>, n: nat, co: seq<bool>, stack: seq<int>, inverses: seq<seq<int>>)
    requires |co| == n && Marked(co) == FinalsOf(t) && (forall q :: q in stack <==> 0 <= q < n && co[q])
             && Inverted(inverses, t, |t|, n)
    ensures Searching(co, stack, Meaning(t, n), inverses, -1, 0)
  {
    var m := Meaning(t, n);
    forall q | 0 <= q < n && co[q] ensures Productive(m, q) {
      assert q in Marked(co);
      FinalIsProductive(m, q);
    }
  }

  lemma NoneMarked(n: nat)
    ensures Marked(seq(n, _ => false)) == {}
  {
  }

  lemma IsMarked(co: seq<bool>, s: int)
    requires 0 <= s < |co|
    ensures s in Marked(co) <==> co[s]
  {
  }

  lemma MarkOne(co: seq<bool>, s: int)
    requires 0 <= s < |co| && !co[s]
    ensures Marked(co[s := true]) == Marked(co) + {s} && |Marked(co[s := true])| == |Marked(co)| + 1
  {
    assert Marked(co[s := true]) == Marked(co) + {s};
  }

  lemma MarkBound(co: seq<bool>)
    ensures |Marked(co)| <= |co|
    ensures |Marked(co)| == |co| ==> forall q :: 0 <= q < |co| ==> co[q]
  {
    BelowSize(|co|);
    SubsetSize(Marked(co), Below(|co|));
    if |Marked(co)| == |co| {
      forall q | 0 <= q < |co| ensures co[q] {
        assert q in Below(|co|);
      }
    }
  }

  lemma PopState(co: seq<bool>, stack: seq<int>, m: Net, inverses: seq<seq<int>>)
    requires Searching(co, stack, m, inverses, -1, 0) && stack != []
    ensures Searching(co, stack[..|stack| - 1], m, inverses, stack[|stack| - 1], 0)
            && 0 <= stack[|stack| - 1] < m.states
  {
    var q, rest := stack[|stack| - 1], stack[..|stack| - 1];
    Pushed(rest, q);
    assert stack == rest + [q];
    assert q in stack;
  }

  lemma Pushed(stack: seq<int>, q: int)
    ensures forall x :: x in stack + [q] <==> x in stack || x == q
  {
    assert (stack + [q])[|stack|] == q;
    forall x | x in stack ensures x in stack + [q] {
      var i :| 0 <= i < |stack| && stack[i] == x;
      assert (stack + [q])[i] == x;
    }
  }

  lemma AllFollowed(co: seq<bool>, stack: seq<int>, m: Net, inverses: seq<seq<int>>, q: int)
    requires 0 <= q < |inverses| && Searching(co, stack, m, inverses, q, |inverses[q]|)
    ensures Searching(co, stack, m, inverses, -1, 0)
  {
    forall s | s in inverses[q] ensures 0 <= s < |co| && co[s] {
      var i :| 0 <= i < |inverses[q]| && inverses[q][i] == s;
    }
  }

  lemma MarkPredecessor(co: seq<bool>, stack: seq<int>, m: Net, inverses: seq<seq<int>>, q: int, k: nat)
    requires 0 <= q < |inverses| && k < |inverses[q]| && Searching(co, stack, m, inverses, q, k)
    requires 0 <= inverses[q][k] < |co| && Productive(m, inverses[q][k])
    ensures var s := inverses[q][k];
            if co[s] then Searching(co, stack, m, inverses, q, k + 1)
            else Searching(co[s := true], stack + [s], m, inverses, q, k + 1)
  {
    hide Productive;
    var s := inverses[q][k];
    Pushed(stack, s);
    forall i | 0 <= i < k + 1 ensures 0 <= inverses[q][i] < |co| && (co[inverses[q][i]] || inverses[q][i] == s) {
    }
  }

  // All unmarked predecessors of one state.
  method MarkPredecessors(co0: seq<bool>, stack0: seq<int>, q: int, inverses: seq<seq<int>>, markcount0: nat,
                          ghost t: seq<Line>, ghost n: nat)
    returns (co: seq<bool>, stack: seq<int>, markcount: nat)
    requires IsTable(t, n) && Inverted(inverses, t, |t|, n) && Searching(co0, stack0, Meaning(t, n), inverses, q, 0)
             && 0 <= q < n
    requires markcount0 == |Marked(co0)|
    ensures Searching(co, stack, Meaning(t, n), inverses, -1, 0) && markcount == |Marked(co)|
            && Marked(co0) <= Marked(co)
    ensures |stack| - |stack0| == markcount - markcount0 && markcount >= markcount0
  {
    hide IsTable, Marked;
    ghost var m := Meaning(t, n);
    co, stack, markcount := co0, stack0, markcount0;
    for k := 0 to |inverses[q]|
      invariant Searching(co, stack, m, inverses, q, k)
      invariant |co| == n && markcount == |Marked(co)| && Marked(co0) <= Marked(co)
                && |stack| - |stack0| == markcount - markcount0 >= 0
    {
      var s := inverses[q][k];
      assert s in inverses[q] && ArcTo(t, |t|, s, q);
      PredecessorProductive(t, n, s, q);
      MarkPredecessor(co, stack, m, inverses, q, k);
      if !co[s] {
        MarkOne(co, s);
        co := co[s := true];
        stack := stack + [s];
        markcount := markcount + 1;
      }
    }
    AllFollowed(co, stack, m, inverses, q);
  }

  // The states that lead to a final state; all says that these are all states.
  method FindCoaccessible(t: seq<Line>, n: nat) returns (co: seq<bool>, markcount: nat, all: bool)
    requires IsTable(t, n)
    ensures |co| == n && forall q :: 0 <= q < n ==> (co[q] <==> Productive(Meaning(t, n), q))
    ensures markcount == |Marked(co)|
    ensures if all then forall q :: 0 <= q < n ==> co[q] else markcount == 0 || markcount < n
  {
    hide IsTable, Marked, Productive, Searching, Inverted;
    ghost var m := Meaning(t, n);
    var inverses := Invert(t, n);
    var stack;
    co, stack, markcount := MarkFinals(t, n, inverses);
    ghost var finals := Marked(co);
    all := false;
    SearchFacts(co, stack, m, inverses, -1);
    if stack == [] {
      NothingMarked(co);
    }
    while stack != []
      invariant stack == [] ==> markcount == 0 || markcount < n
      invariant Searching(co, stack, m, inverses, -1, 0) && markcount == |Marked(co)| && finals <= Marked(co)
      decreases n - markcount, |stack|
    {
      var current := stack[|stack| - 1];
      PopState(co, stack, m, inverses);
      stack := stack[..|stack| - 1];
      SearchFacts(co, stack, m, inverses, current);
      MarkBound(co);
      co, stack, markcount := MarkPredecessors(co, stack, current, inverses, markcount, t, n);
      SearchFacts(co, stack, m, inverses, -1);
      MarkBound(co);
      if markcount >= n {
        all := true;
        return;
      }
    }
    SearchFacts(co, stack, m, inverses, -1);
    assert stack == [];
    SearchDone(t, n, co, inverses);
  }

  lemma NothingMarked(co: seq<bool>)
    requires forall q :: 0 <= q < |co| ==> !co[q]
    ensures |Marked(co)| == 0
  {
    assert Marked(co) == {};
  }

  lemma SearchFacts(co: seq<bool>, stack: seq<int>, m: Net, inverses: seq<seq<int>>, q: int)
    requires Searching(co, stack, m, inverses, q, 0)
    ensures |co| == |inverses| == m.states && (q != -1 ==> 0 <= q < m.states)
    ensures forall x :: 0 <= x < |co| && co[x] ==> Productive(m, x)
  {
  }

  lemma SearchDone(t: seq<Line>, n: nat, co: seq<bool>, inverses: seq<seq<int>>)
    requires IsTable(t, n) && Inverted(inverses, t, |t|, n) && Searching(co, [], Meaning(t, n), inverses, -1, 0)
             && FinalsOf(t) <= Marked(co)
    ensures |co| == n && forall q :: 0 <= q < n && Productive(Meaning(t, n), q) ==> co[q]
  {
    var m := Meaning(t, n);
    forall q | 0 <= q < n && Productive(m, q) ensures co[q] {
      var f :| f in m.finals && Reaches(m.arcs, q, f);
      var path :| Path(m.arcs, q, path, f);
      assert f in Marked(co);
      ClosedBackward(t, n, co, inverses, q, path, f);
    }
  }
}
