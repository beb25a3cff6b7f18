// fsm_minus (constructions.c): the second net, once it cannot follow, is dead.
// State numbers are shifted by one, and 0 stands for the dead state.

module Minus {
  import opened Nets
  import opened TripletHash
  import opened Pointers
  import opened Explore
  import opened Order

  // Where the second net goes over l.
  ghost function After(bm: Net, b: int, l: Letter): int {
    if b == 0 then 0 else Next(bm.arcs, b - 1, l) + 1
  }

  ghost function Follow(arcs: set<Arc>, bm: Net, b: int): set<Move> {
    set p | p in arcs :: Move(p.letter, Triple(p.dst + 1, After(bm, b, p.letter), 0))
  }

  ghost function Difference(am: Net, bm: Net): Space {
    Space(Triple(1, 1, 0),
          (x: Triple) => Follow(ArcsAt(am.arcs, x.a - 1), bm, x.b),
          (x: Triple) => x.a - 1 in am.finals && (x.b == 0 || x.b - 1 !in bm.finals))
  }

  ghost function ShiftedPairs(n1: nat, n2: nat): (r: set<Triple>)
    ensures forall x :: x in r <==> 0 < x.a <= n1 && 0 <= x.b <= n2 && x.c == 0
  {
    var all := set a, b | 0 < a <= n1 && 0 <= b <= n2 :: Triple(a, b, 0);
    assert forall x: Triple :: 0 < x.a <= n1 && 0 <= x.b <= n2 && x.c == 0 ==> x == Triple(x.a, x.b, 0);
    all
  }

  // The run of the second net with -1 for dead.
  ghost function RunOn(bm: Net, b: int, w: seq<Letter>): int {
    if b == 0 then -1 else Run(bm.arcs, b - 1, w)
  }

  lemma {:induction false} WalkRuns(am: Net, bm: Net, x: Triple, walk: seq<Move>, y: Triple)
    requires Deterministic(am) && Walk(Difference(am, bm), x, walk, y)
    ensures Run(am.arcs, x.a - 1, Label(walk)) == y.a - 1 && RunOn(bm, x.b, Label(walk)) == y.b - 1
    decreases walk
  {
    hide Deterministic, Next;
    if walk != [] {
      var mv := walk[0];
      var p :| p in ArcsAt(am.arcs, x.a - 1) && mv == Move(p.letter, Triple(p.dst + 1, After(bm, x.b, p.letter), 0));
      WalkRuns(am, bm, mv.to, walk[1..], y);
      ArcNext(am, p);
      assert Label(walk) == [mv.letter] + Label(walk[1..]);
      assert Label(walk)[1..] == Label(walk[1..]);
    }
  }

  lemma ArcNext(am: Net, p: Arc)
    requires Deterministic(am) && p in am.arcs
    ensures Next(am.arcs, p.src, p.letter) == p.dst >= 0 && p.letter != EPS
  {
    assert p == Arc(p.src, p.letter, p.dst);
    NextIs(am, p.src, p.letter, true, p.dst);
  }

  lemma {:induction false} RunsWalk(am: Net, bm: Net, x: Triple, w: seq<Letter>) returns (walk: seq<Move>, y: Triple)
    requires Deterministic(am) && Run(am.arcs, x.a - 1, w) != -1
    ensures Walk(Difference(am, bm), x, walk, y) && Label(walk) == w
    ensures y.a - 1 == Run(am.arcs, x.a - 1, w) && y.b - 1 == RunOn(bm, x.b, w)
    decreases w
  {
    hide Deterministic, Next, Difference;
    if w == [] {
      walk, y := [], x;
    } else {
      var p := Next(am.arcs, x.a - 1, w[0]);
      var to := Triple(p + 1, After(bm, x.b, w[0]), 0);
      NextMove(am, bm, x, w[0]);
      var rest;
      rest, y := RunsWalk(am, bm, to, w[1..]);
      walk := [Move(w[0], to)] + rest;
      assert walk[1..] == rest && w == [w[0]] + w[1..];
    }
  }

  lemma NextMove(am: Net, bm: Net, x: Triple, l: Letter)
    requires Deterministic(am) && Next(am.arcs, x.a - 1, l) != -1
    ensures var p := Next(am.arcs, x.a - 1, l);
            Move(l, Triple(p + 1, After(bm, x.b, l), 0)) in Difference(am, bm).next(x) && l != EPS
  {
    var p := Next(am.arcs, x.a - 1, l);
    assert Arc(x.a - 1, l, p) in ArcsAt(am.arcs, x.a - 1);
  }

  lemma WalksAreRuns(am: Net, bm: Net, w: seq<Letter>)
    requires Deterministic(am) && Deterministic(bm)
    ensures AcceptsIn(Difference(am, bm), w) <==> Run(am.arcs, 0, w) in am.finals && RunOn(bm, 1, w) !in bm.finals
  {
    hide Walk, Label, Run, RunOn;
    var space := Difference(am, bm);
    if AcceptsIn(space, w) {
      var y :| WalksTo(space, space.init, w, y) && space.final(y);
      var walk :| Walk(space, space.init, walk, y) && Label(walk) == w;
      WalkRuns(am, bm, space.init, walk, y);
    }
    if Run(am.arcs, 0, w) in am.finals && RunOn(bm, 1, w) !in bm.finals {
      var walk, y := RunsWalk(am, bm, space.init, w);
      assert WalksTo(space, space.init, w, y) && space.final(y);
    }
  }

  lemma DifferenceLanguage(am: Net, bm: Net, k: Net, keys: seq<Triple>, w: seq<Letter>)
    requires Deterministic(am) && Deterministic(bm) && IsExplored(Difference(am, bm), k, keys)
    ensures Accepts(k, w) <==> Accepts(am, w) && !Accepts(bm, w)
  {
    hide Walk, Label, Run, IsExplored, AcceptsIn;
    ExploredLanguage(Difference(am, bm), k, keys, w);
    AcceptsByRun(am, w);
    AcceptsByRun(bm, w);
    WalksAreRuns(am, bm, w);
  }

  // ---- The product ----

  lemma FollowNext(arcs: set<Arc>, p: Arc, bm: Net, b: int)
    ensures Follow(arcs + {p}, bm, b) == Follow(arcs, bm, b)
            + {Move(p.letter, Triple(p.dst + 1, After(bm, b, p.letter), 0))}
  {
    assert p in arcs + {p};
  }

  lemma FollowNone(bm: Net, b: int)
    ensures Follow({}, bm, b) == {}
  {
  }

  lemma FollowMember(arcs: set<Arc>, p: Arc, bm: Net, b: int)
    requires p in arcs
    ensures Move(p.letter, Triple(p.dst + 1, After(bm, b, p.letter), 0)) in Follow(arcs, bm, b)
  {
  }

  // All arcs of a; b is 0 when the second net is dead.
  method MinusPair(e: Explorer, ghost cur: nat, a: int, b: int, t1: seq<Line>, n1: nat, point1: seq<StateArr>,
                   t2: seq<Line>, n2: nat, point2: seq<StateArr>)
    requires IsNet(t1, n1) && PointersOK(point1, t1, n1) && 0 <= a < n1
    requires IsNet(t2, n2) && PointersOK(point2, t2, n2) && -1 <= b < n2 && Deterministic(Meaning(t2, n2))
    requires e.space == Difference(Meaning(t1, n1), Meaning(t2, n2))
    requires e.Valid(cur, {}) && cur < |e.table.keys| && e.table.keys[cur] == Triple(a + 1, b + 1, 0)
    modifies e, e.table, e.table.triplets, e.writer
    ensures e.Valid(-1, {}) && e.done == old(e.done) + {cur}
    ensures e.table.triplets == old(e.table.triplets) || fresh(e.table.triplets)
  {
    hide IsNet, PointersOK, ArcsOf, Explorer.Valid, Deterministic, Follow, ArcsIn, ArcsAt, LoneFlags, Grouped;
    ghost var am, bm := Meaning(t1, n1), Meaning(t2, n2);
    NetLines(t1, n1);
    RowStart(t1, point1, n1, a);
    var first := point1[a].first;
    var i := first;
    ghost var keys := e.table.keys;
    FollowNone(bm, b + 1);
    while i < |t1| && t1[i].state == a
      invariant OnRow(t1, first, i, a) && first < |t1| && t1[first].state == a
      invariant e.Valid(cur, Follow(ArcsIn(t1, first, i), bm, b + 1)) && keys <= e.table.keys && e.done == old(e.done)
      invariant e.table.triplets == old(e.table.triplets) || fresh(e.table.triplets)
    {
      RowNext(t1, first, i, a);
      assert LineOK(t1[i], n1);
      if t1[i].target == -1 {
        break;
      }
      var l := Letter(t1[i].inp, t1[i].outp);
      var b' := 0;
      if b != -1 {
        var hasTrans, btarget := FindArc(t2, n2, point2, b, l);
        NextIs(bm, b, l, hasTrans, btarget);
        if hasTrans {
          b' := btarget + 1;
        }
      }
      LineIsArc(t1, i);
      FollowMember(ArcsAt(am.arcs, a), LineArc(t1[i]), bm, b + 1);
      FollowNext(ArcsIn(t1, first, i), LineArc(t1[i]), bm, b + 1);
      e.Add(l.inp, l.outp, Triple(t1[i].target + 1, b', 0), cur, Follow(ArcsIn(t1, first, i), bm, b + 1));
      i := i + 1;
    }
    RowEnds(t1, n1, first, i, a);
    e.EndState(cur);
  }

  lemma PairsBounded(am: Net, bm: Net)
    requires Deterministic(am) && Deterministic(bm)
    ensures Triple(1, 1, 0) in ShiftedPairs(am.states, bm.states)
    ensures forall x, mv :: x in ShiftedPairs(am.states, bm.states) && mv in Difference(am, bm).next(x) ==>
              mv.to in ShiftedPairs(am.states, bm.states)
  {
    assert 0 in am.starts && 0 in bm.starts;
    forall x, mv | x in ShiftedPairs(am.states, bm.states) && mv in Difference(am, bm).next(x)
      ensures mv.to in ShiftedPairs(am.states, bm.states) {
      var p :| p in ArcsAt(am.arcs, x.a - 1) && mv == Move(p.letter, Triple(p.dst + 1, After(bm, x.b, p.letter), 0));
      if x.b != 0 {
        assert Next(bm.arcs, x.b - 1, p.letter) == -1
               || Arc(x.b - 1, p.letter, Next(bm.arcs, x.b - 1, p.letter)) in bm.arcs;
      }
    }
  }

  // The loop of fsm_minus.
  method FsmMinus(t1: seq<Line>, n1: nat, t2: seq<Line>, n2: nat)
    returns (out: seq<Line>, states: nat, ghost keys: seq<Triple>)
    requires IsNet(t1, n1) && Deterministic(Meaning(t1, n1)) && IsNet(t2, n2) && Deterministic(Meaning(t2, n2))
    ensures IsNet(out, states) && InOrder(out)
            && IsExplored(Difference(Meaning(t1, n1), Meaning(t2, n2)), Meaning(out, states), keys)
    ensures forall w :: Accepts(Meaning(out, states), w) <==> Accepts(Meaning(t1, n1), w)
                                                              && !Accepts(Meaning(t2, n2), w)
  {
    hide IsNet, PointersOK, Explorer.Valid, Deterministic, IsExplored, Accepts;
    ghost var am, bm := Meaning(t1, n1), Meaning(t2, n2);
    NetLines(t1, n1);
    NetLines(t2, n2);
    var point1 := InitStatePointers(t1, n1);
    var point2 := InitStatePointers(t2, n2);
    PairsBounded(am, bm);
    var e := new Explorer(Difference(am, bm), ShiftedPairs(n1, n2), Triple(1, 1, 0));
    while e.stack != []
      invariant e.Valid(-1, {}) && fresh(e.table.triplets)
      decreases e.Left()
    {
      var x := e.stack[|e.stack| - 1];
      e.SomeLeft();
      e.TopKnown();
      FinalFlags(point1, t1, n1, point2, t2, n2);
      var a, b := x.a - 1, x.b - 1;
      var start, final := false, point1[a].final;
      if b != -1 {
        start := a == 0 && b == 0;
        final := point1[a].final && !point2[b].final;
      }
      ghost var cur;
      x, cur := e.Open(final, start);
      MinusPair(e, cur, a, b, t1, n1, point1, t2, n2, point2);
    }
    out, states := e.Close();
    keys := e.table.keys;
    forall w ensures Accepts(Meaning(out, states), w) <==> Accepts(am, w) && !Accepts(bm, w) {
      DifferenceLanguage(am, bm, Meaning(out, states), keys, w);
    }
  }

  lemma FinalFlags(point1: seq<StateArr>, t1: seq<Line>, n1: nat, point2: seq<StateArr>, t2: seq<Line>, n2: nat)
    requires PointersOK(point1, t1, n1) && PointersOK(point2, t2, n2)
    ensures |point1| == n1 && |point2| == n2
    ensures forall a :: 0 <= a < n1 ==> (point1[a].final <==> a in FinalsOf(t1))
    ensures forall b :: 0 <= b < n2 ==> (point2[b].final <==> b in FinalsOf(t2))
  {
  }
}
