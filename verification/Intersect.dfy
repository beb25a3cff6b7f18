// fsm_intersect (constructions.c): two deterministic nets run in parallel.

module Intersect {
  import opened Nets
  import opened TripletHash
  import opened Pointers
  import opened Explore
  import opened Order

  // The moves over arcs of the first net and the arcs of bm at b.
  ghost function Pairs(arcs: set<Arc>, bm: Net, b: int): set<Move> {
    set p, q | p in arcs && q in bm.arcs && q.src == b
        && q.letter == p.letter :: Move(p.letter, Triple(p.dst, q.dst, 0))
  }

  ghost function Both(am: Net, bm: Net): Space {
    Space(Triple(0, 0, 0),
          (x: Triple) => Pairs(ArcsAt(am.arcs, x.a), bm, x.b),
          (x: Triple) => x.a in am.finals && x.b in bm.finals)
  }

  ghost function PairStates(n1: nat, n2: nat): (r: set<Triple>)
    ensures forall x :: x in r <==> 0 <= x.a < n1 && 0 <= x.b < n2 && x.c == 0
  {
    var all := set a, b | 0 <= a < n1 && 0 <= b < n2 :: Triple(a, b, 0);
    assert forall x: Triple :: 0 <= x.a < n1 && 0 <= x.b < n2 && x.c == 0 ==> x == Triple(x.a, x.b, 0);
    all
  }

  // ---- Walks are pairs of runs ----

  lemma {:induction false} WalkRuns(am: Net, bm: Net, x: Triple, walk: seq<Move>, y: Triple)
    requires Deterministic(am) && Deterministic(bm) && Walk(Both(am, bm), x, walk, y)
    ensures Run(am.arcs, x.a, Label(walk)) == y.a && Run(bm.arcs, x.b, Label(walk)) == y.b
    decreases walk
  {
    if walk != [] {
      var mv := walk[0];
      var p, q :| p in ArcsAt(am.arcs, x.a) && q in bm.arcs && q.src == x.b && q.letter == p.letter
                  && mv == Move(p.letter, Triple(p.dst, q.dst, 0));
      WalkRuns(am, bm, mv.to, walk[1..], y);
      assert Label(walk) == [mv.letter] + Label(walk[1..]);
      assert Arc(x.a, mv.letter, p.dst) in am.arcs && Arc(x.b, mv.letter, q.dst) in bm.arcs;
    }
  }

  lemma {:induction false} RunsWalk(am: Net, bm: Net, x: Triple, w: seq<Letter>) returns (walk: seq<Move>, y: Triple)
    requires Deterministic(am) && Deterministic(bm) && Run(am.arcs, x.a, w) != -1 && Run(bm.arcs, x.b, w) != -1
    ensures Walk(Both(am, bm), x, walk, y) && Label(walk) == w && y.a == Run(am.arcs, x.a, w)
            && y.b == Run(bm.arcs, x.b, w)
    decreases w
  {
    if w == [] {
      walk, y := [], x;
    } else {
      var p, q := Next(am.arcs, x.a, w[0]), Next(bm.arcs, x.b, w[0]);
      var to := Triple(p, q, 0);
      var rest;
      rest, y := RunsWalk(am, bm, to, w[1..]);
      assert Arc(x.a, w[0], p) in ArcsAt(am.arcs, x.a) && Arc(x.b, w[0], q) in bm.arcs;
      walk := [Move(w[0], to)] + rest;
      assert Move(w[0], to) in Both(am, bm).next(x);
      assert walk[1..] == rest;
      assert Label(walk) == [w[0]] + Label(rest);
    }
  }

  // The pair-language of the product is the intersection.
  lemma IntersectionLanguage(am: Net, bm: Net, k: Net, keys: seq<Triple>, w: seq<Letter>)
    requires Deterministic(am) && Deterministic(bm) && IsExplored(Both(am, bm), k, keys)
    ensures Accepts(k, w) <==> Accepts(am, w) && Accepts(bm, w)
  {
    var space := Both(am, bm);
    ExploredLanguage(space, k, keys, w);
    AcceptsByRun(am, w);
    AcceptsByRun(bm, w);
    if AcceptsIn(space, w) {
      var y :| WalksTo(space, space.init, w, y) && space.final(y);
      var walk :| Walk(space, space.init, walk, y) && Label(walk) == w;
      WalkRuns(am, bm, space.init, walk, y);
    }
    if Accepts(am, w) && Accepts(bm, w) {
      var walk, y := RunsWalk(am, bm, space.init, w);
      assert WalksTo(space, space.init, w, y) && space.final(y);
    }
  }

  // ---- The index of the second net ----

  datatype Lookup = Lookup(mainloop: int, target: int)

  // Entries stamped with mainloop are the arcs of b in arcs.
  ghost predicate IndexOK(index: map<Letter, Lookup>, mainloop: int, arcs: set<Arc>, b: int) {
    && (forall l :: l in index ==> index[l].mainloop <= mainloop)
    && (forall l :: l in index && index[l].mainloop == mainloop ==> Arc(b, l, index[l].target) in arcs)
    && (forall a :: a in arcs && a.src == b ==> a.letter in index && index[a.letter].mainloop == mainloop)
  }

  method BuildIndex(index0: map<Letter, Lookup>, mainloop: int, t: seq<Line>, n: nat, point: seq<StateArr>, b: int)
    returns (index: map<Letter, Lookup>)
    requires IsNet(t, n) && PointersOK(point, t, n) && 0 <= b < n
    requires forall l :: l in index0 ==> index0[l].mainloop < mainloop
    ensures IndexOK(index, mainloop, ArcsAt(ArcsOf(t), b), b)
  {
    hide IsNet, PointersOK, ArcsOf, ArcsIn, IndexOK, Grouped, IsTable;
    NetLines(t, n);
    RowStart(t, point, n, b);
    index := index0;
    StaleIndex(index, mainloop, b);
    var first := point[b].first;
    var i := first;
    while i < |t| && t[i].state == b
      invariant OnRow(t, first, i, b) && IndexOK(index, mainloop, ArcsIn(t, first, i), b)
      invariant first < |t| && t[first].state == b
    {
      RowNext(t, first, i, b);
      assert LineOK(t[i], n);
      ghost var arcs := ArcsIn(t, first, i);
      assert arcs + {} == arcs;
      if t[i].inp >= 0 {
        IndexNext(index, mainloop, arcs, LineArc(t[i]));
        index := index[Letter(t[i].inp, t[i].outp) := Lookup(mainloop, t[i].target)];
      }
      i := i + 1;
    }
    NetRow(t, n, first, i, b);
  }

  lemma StaleIndex(index: map<Letter, Lookup>, mainloop: int, b: int)
    requires forall l :: l in index ==> index[l].mainloop < mainloop
    ensures IndexOK(index, mainloop, {}, b)
  {
  }

  lemma IndexNext(index: map<Letter, Lookup>, mainloop: int, arcs: set<Arc>, a: Arc)
    requires IndexOK(index, mainloop, arcs, a.src)
    ensures IndexOK(index[a.letter := Lookup(mainloop, a.dst)], mainloop, arcs + {a}, a.src)
  {
  }

  // ---- The product ----

  lemma PairsNext(arcs: set<Arc>, p: Arc, bm: Net, b: int, index: map<Letter, Lookup>, mainloop: int)
    requires Deterministic(bm) && IndexOK(index, mainloop, ArcsAt(bm.arcs, b), b)
    ensures if p.letter in index && index[p.letter].mainloop == mainloop
            then Arc(b, p.letter, index[p.letter].target) in bm.arcs
                 && Pairs(arcs + {p}, bm, b) == Pairs(arcs, bm, b)
                    + {Move(p.letter, Triple(p.dst, index[p.letter].target, 0))}
            else Pairs(arcs + {p}, bm, b) == Pairs(arcs, bm, b)
  {
    var all := Pairs(arcs + {p}, bm, b);
    forall q | q in bm.arcs && q.src == b && q.letter == p.letter
      ensures p.letter in index && index[p.letter].mainloop == mainloop && q.dst == index[p.letter].target {
      assert q in ArcsAt(bm.arcs, b);
      assert Arc(b, p.letter, index[p.letter].target) in bm.arcs;
    }
    if p.letter in index && index[p.letter].mainloop == mainloop {
      var q := Arc(b, p.letter, index[p.letter].target);
      assert p in arcs + {p} && q in bm.arcs;
    }
  }

  lemma NoPairs(bm: Net, b: int)
    ensures Pairs({}, bm, b) == {}
  {
  }

  lemma PairsMember(arcs: set<Arc>, p: Arc, bm: Net, b: int, target: int)
    requires p in arcs && Arc(b, p.letter, target) in bm.arcs
    ensures Move(p.letter, Triple(p.dst, target, 0)) in Pairs(arcs, bm, b)
  {
    var q := Arc(b, p.letter, target);
    assert q in bm.arcs && q.src == b && q.letter == p.letter;
  }

  // One pair of states: all arcs of a that b shares.
  method IntersectPair(e: Explorer, ghost cur: nat, a: int, b: int, t1: seq<Line>, n1: nat, point1: seq<StateArr>,
                       index: map<Letter, Lookup>, mainloop: int, ghost bm: Net)
    requires IsNet(t1, n1) && PointersOK(point1, t1, n1) && 0 <= a < n1 && Deterministic(bm)
    requires e.space == Both(Meaning(t1, n1), bm) && e.Valid(cur, {}) && cur < |e.table.keys|
             && e.table.keys[cur] == Triple(a, b, 0)
    requires IndexOK(index, mainloop, ArcsAt(bm.arcs, b), b)
    modifies e, e.table, e.table.triplets, e.writer
    ensures e.Valid(-1, {}) && e.done == old(e.done) + {cur}
    ensures e.table.triplets == old(e.table.triplets) || fresh(e.table.triplets)
  {
    hide IsNet, PointersOK, ArcsOf, Explorer.Valid, Deterministic, IndexOK, Pairs;
    NetLines(t1, n1);
    RowStart(t1, point1, n1, a);
    var first := point1[a].first;
    var i := first;
    ghost var keys := e.table.keys;
    NoPairs(bm, b);
    while i < |t1| && t1[i].state == a
      invariant OnRow(t1, first, i, a) && e.Valid(cur, Pairs(ArcsIn(t1, first, i), bm, b))
      invariant keys <= e.table.keys && e.done == old(e.done)
      invariant e.table.triplets == old(e.table.triplets) || fresh(e.table.triplets)
    {
      ghost var sofar := ArcsIn(t1, first, i);
      assert sofar + {} == sofar;
      RowNext(t1, first, i, a);
      assert LineOK(t1[i], n1);
      if t1[i].inp >= 0 && t1[i].outp >= 0 {
        var l := Letter(t1[i].inp, t1[i].outp);
        PairsNext(sofar, LineArc(t1[i]), bm, b, index, mainloop);
        if l in index && index[l].mainloop == mainloop {
          LineIsArc(t1, i);
          PairsMember(ArcsAt(ArcsOf(t1), a), LineArc(t1[i]), bm, b, index[l].target);
          e.Add(l.inp, l.outp, Triple(t1[i].target, index[l].target, 0), cur, Pairs(sofar, bm, b));
        }
      }
      i := i + 1;
    }
    NetRow(t1, n1, first, i, a);
    e.EndState(cur);
  }

  // States are the pairs of states of the two nets.
  lemma PairsBounded(am: Net, bm: Net)
    requires Deterministic(am) && Deterministic(bm)
    ensures Triple(0, 0, 0) in PairStates(am.states, bm.states)
    ensures forall x, mv :: x in PairStates(am.states, bm.states) && mv in Both(am, bm).next(x) ==>
                              mv.to in PairStates(am.states, bm.states)
  {
    assert 0 in am.starts && 0 in bm.starts;
  }

  // The loop of fsm_intersect.
  method FsmIntersect(t1: seq<Line>, n1: nat, t2: seq<Line>, n2: nat)
    returns (out: seq<Line>, states: nat, ghost keys: seq<Triple>)
    requires IsNet(t1, n1) && Deterministic(Meaning(t1, n1)) && IsNet(t2, n2) && Deterministic(Meaning(t2, n2))
    ensures IsNet(out, states) && InOrder(out)
            && IsExplored(Both(Meaning(t1, n1), Meaning(t2, n2)), Meaning(out, states), keys)
    ensures forall w :: Accepts(Meaning(out, states), w) <==> Accepts(Meaning(t1, n1), w) && Accepts(Meaning(t2, n2), w)
  {
    hide IsNet, PointersOK, Explorer.Valid, Deterministic, IndexOK, IsExplored, Accepts;
    ghost var am, bm := Meaning(t1, n1), Meaning(t2, n2);
    NetLines(t1, n1);
    NetLines(t2, n2);
    var point1 := InitStatePointers(t1, n1);
    var point2 := InitStatePointers(t2, n2);
    PairsBounded(am, bm);
    var e := new Explorer(Both(am, bm), PairStates(n1, n2), Triple(0, 0, 0));
    var index: map<Letter, Lookup>, mainloop := map[], 0;
    while e.stack != []
      invariant e.Valid(-1, {}) && fresh(e.table.triplets)
      invariant forall l :: l in index ==> index[l].mainloop <= mainloop
      decreases e.Left()
    {
      var x := e.stack[|e.stack| - 1];
      e.SomeLeft();
      e.TopKnown();
      Flagged(point1, t1, n1, point2, t2, n2, x);
      ghost var cur;
      x, cur := e.Open(point1[x.a].final && point2[x.b].final, point1[x.a].start && point2[x.b].start);
      mainloop := mainloop + 1;
      index := BuildIndex(index, mainloop, t2, n2, point2, x.b);
      IntersectPair(e, cur, x.a, x.b, t1, n1, point1, index, mainloop, bm);
      IndexStamps(index, mainloop, bm, x.b);
    }
    out, states := e.Close();
    keys := e.table.keys;
    forall w ensures Accepts(Meaning(out, states), w) <==> Accepts(am, w) && Accepts(bm, w) {
      IntersectionLanguage(am, bm, Meaning(out, states), keys, w);
    }
  }

  lemma IndexStamps(index: map<Letter, Lookup>, mainloop: int, bm: Net, b: int)
    requires IndexOK(index, mainloop, ArcsAt(bm.arcs, b), b)
    ensures forall l :: l in index ==> index[l].mainloop <= mainloop
  {
  }

  // The flags read off the two nets are those of the pair.
  lemma Flagged(point1: seq<StateArr>, t1: seq<Line>, n1: nat, point2: seq<StateArr>, t2: seq<Line>, n2: nat, x: Triple)
    requires PointersOK(point1, t1, n1) && PointersOK(point2, t2, n2) && x in PairStates(n1, n2)
    requires Deterministic(Meaning(t1, n1)) && Deterministic(Meaning(t2, n2))
    ensures |point1| == n1 && |point2| == n2
    ensures point1[x.a].final && point2[x.b].final <==> x.a in FinalsOf(t1) && x.b in FinalsOf(t2)
    ensures point1[x.a].start && point2[x.b].start <==> x == Triple(0, 0, 0)
  {
  }
}
