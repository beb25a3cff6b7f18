// fsm_shuffle (constructions.c): in every step one net moves and the other
// stays.

module Shuffle {
  import opened Nets
  import opened TripletHash
  import opened Pointers
  import opened Explore
  import opened Order
  import Intersect

  ghost function MovesA(ps: set<Arc>, b: int): set<Move> {
    set p | p in ps :: Move(p.letter, Triple(p.dst, b, 0))
  }

  ghost function MovesB(qs: set<Arc>, a: int): set<Move> {
    set q | q in qs :: Move(q.letter, Triple(a, q.dst, 0))
  }

  ghost function Either(am: Net, bm: Net): Space {
    Space(Triple(0, 0, 0),
          (x: Triple) => MovesA(ArcsAt(am.arcs, x.a), x.b) + MovesB(ArcsAt(bm.arcs, x.b), x.a),
          (x: Triple) => x.a in am.finals && x.b in bm.finals)
  }

  // w is an interleaving of u and v.
  ghost predicate Shuffled(w: seq<Letter>, u: seq<Letter>, v: seq<Letter>)
    decreases w
  {
    if w == [] then u == [] && v == []
    else (u != [] && u[0] == w[0] && Shuffled(w[1..], u[1..], v))
         || (v != [] && v[0] == w[0] && Shuffled(w[1..], u, v[1..]))
  }

  lemma WordCons(p: Arc, u: seq<Arc>)
    ensures Word([p] + u) == if p.letter == EPS then Word(u) else [p.letter] + Word(u)
  {
    assert ([p] + u)[1..] == u;
    assert [] + Word(u) == Word(u);
  }

  lemma ShuffledCons(l: Letter, w: seq<Letter>, u: seq<Letter>, v: seq<Letter>)
    requires Shuffled(w, u, v)
    ensures Shuffled([l] + w, [l] + u, v) && Shuffled([l] + w, u, [l] + v)
  {
    assert ([l] + w)[1..] == w && ([l] + u)[1..] == u && ([l] + v)[1..] == v;
  }

  lemma {:induction false} WalkShuffles(am: Net, bm: Net, x: Triple, walk: seq<Move>, y: Triple)
    returns (u: seq<Arc>, v: seq<Arc>)
    requires Walk(Either(am, bm), x, walk, y)
    ensures Path(am.arcs, x.a, u, y.a) && Path(bm.arcs, x.b, v, y.b) && Shuffled(Label(walk), Word(u), Word(v))
    decreases walk
  {
    if walk == [] {
      u, v := [], [];
    } else {
      var mv := walk[0];
      u, v := WalkShuffles(am, bm, mv.to, walk[1..], y);
      ShuffledCons(mv.letter, Label(walk[1..]), Word(u), Word(v));
      assert [] + Label(walk[1..]) == Label(walk[1..]);
      if mv in MovesA(ArcsAt(am.arcs, x.a), x.b) {
        var p :| p in ArcsAt(am.arcs, x.a) && mv == Move(p.letter, Triple(p.dst, x.b, 0));
        assert ([p] + u)[1..] == u;
        WordCons(p, u);
        u := [p] + u;
      } else {
        var q :| q in ArcsAt(bm.arcs, x.b) && mv == Move(q.letter, Triple(x.a, q.dst, 0));
        assert ([q] + v)[1..] == v;
        WordCons(q, v);
        v := [q] + v;
      }
    }
  }

  // Whose turn it is: 0:0 arcs first, then as the shuffle says.
  ghost predicate LeftTurn(u: seq<Arc>, v: seq<Arc>, w: seq<Letter>) {
    if u != [] && u[0].letter == EPS then true
    else if v != [] && v[0].letter == EPS then false
    else u != [] && w != [] && u[0].letter == w[0] && Shuffled(w[1..], Word(u[1..]), Word(v))
  }

  ghost function Rest(l: Letter, w: seq<Letter>): seq<Letter> {
    if l == EPS || w == [] then w else w[1..]
  }

  lemma Turns(u: seq<Arc>, v: seq<Arc>, w: seq<Letter>)
    requires Shuffled(w, Word(u), Word(v)) && (u != [] || v != [])
    ensures LeftTurn(u, v, w) ==>
              && u != [] && Shuffled(Rest(u[0].letter, w), Word(u[1..]), Word(v))
              && w == (if u[0].letter == EPS then [] else [u[0].letter]) + Rest(u[0].letter, w)
    ensures !LeftTurn(u, v, w) ==>
              && v != [] && Shuffled(Rest(v[0].letter, w), Word(u), Word(v[1..]))
              && w == (if v[0].letter == EPS then [] else [v[0].letter]) + Rest(v[0].letter, w)
  {
    if u != [] {
      assert u == [u[0]] + u[1..];
      WordCons(u[0], u[1..]);
      assert u[0].letter != EPS ==> Word(u)[0] == u[0].letter && Word(u)[1..] == Word(u[1..]);
    }
    if v != [] {
      assert v == [v[0]] + v[1..];
      WordCons(v[0], v[1..]);
      assert v[0].letter != EPS ==> Word(v)[0] == v[0].letter && Word(v)[1..] == Word(v[1..]);
    }
    assert [] + w == w;
    assert w != [] ==> [w[0]] + w[1..] == w;
  }

  lemma {:induction false} ShuffleWalks(am: Net, bm: Net, x: Triple, u: seq<Arc>, a: int, v: seq<Arc>, b: int,
                                        w: seq<Letter>)
    returns (walk: seq<Move>, y: Triple)
    requires Path(am.arcs, x.a, u, a) && Path(bm.arcs, x.b, v, b) && Shuffled(w, Word(u), Word(v))
    ensures Walk(Either(am, bm), x, walk, y) && Label(walk) == w && y.a == a && y.b == b
    decreases |u| + |v|
  {
    if u == [] && v == [] {
      walk, y := [], x;
    } else {
      Turns(u, v, w);
      var mv, rest;
      if LeftTurn(u, v, w) {
        mv := Move(u[0].letter, Triple(u[0].dst, x.b, 0));
        rest, y := ShuffleWalks(am, bm, mv.to, u[1..], a, v, b, Rest(u[0].letter, w));
        assert u[0] in ArcsAt(am.arcs, x.a) && mv in MovesA(ArcsAt(am.arcs, x.a), x.b);
      } else {
        mv := Move(v[0].letter, Triple(x.a, v[0].dst, 0));
        rest, y := ShuffleWalks(am, bm, mv.to, u, a, v[1..], b, Rest(v[0].letter, w));
        assert v[0] in ArcsAt(bm.arcs, x.b) && mv in MovesB(ArcsAt(bm.arcs, x.b), x.a);
      }
      walk := [mv] + rest;
      assert walk[1..] == rest;
      assert mv in Either(am, bm).next(x);
    }
  }

  // The pair-language of the product is the shuffle.
  lemma ShuffleLanguage(am: Net, bm: Net, k: Net, keys: seq<Triple>, w: seq<Letter>)
    requires am.starts == {0} && bm.starts == {0} && IsExplored(Either(am, bm), k, keys)
    ensures Accepts(k, w) <==> exists u, v :: Accepts(am, u) && Accepts(bm, v) && Shuffled(w, u, v)
  {
    hide Shuffled, IsExplored, Accepts, WalksTo;
    ExploredLanguage(Either(am, bm), k, keys, w);
    if Accepts(k, w) {
      var wu, wv := Unshuffled(am, bm, w);
    }
    if wu, wv :| Accepts(am, wu) && Accepts(bm, wv) && Shuffled(w, wu, wv) {
      ShuffledWalk(am, bm, wu, wv, w);
    }
  }

  lemma Unshuffled(am: Net, bm: Net, w: seq<Letter>) returns (wu: seq<Letter>, wv: seq<Letter>)
    requires am.starts == {0} && bm.starts == {0}
    requires exists y :: WalksTo(Either(am, bm), Either(am, bm).init, w, y) && Either(am, bm).final(y)
    ensures Accepts(am, wu) && Accepts(bm, wv) && Shuffled(w, wu, wv)
  {
    hide Shuffled;
    var space := Either(am, bm);
    var y :| WalksTo(space, space.init, w, y) && space.final(y);
    var walk :| Walk(space, space.init, walk, y) && Label(walk) == w;
    var u, v := WalkShuffles(am, bm, space.init, walk, y);
    wu, wv := Word(u), Word(v);
    assert Spells(am.arcs, 0, wu, y.a);
    assert Spells(bm.arcs, 0, wv, y.b);
  }

  lemma ShuffledWalk(am: Net, bm: Net, wu: seq<Letter>, wv: seq<Letter>, w: seq<Letter>)
    requires am.starts == {0} && bm.starts == {0} && Accepts(am, wu) && Accepts(bm, wv) && Shuffled(w, wu, wv)
    ensures exists y :: WalksTo(Either(am, bm), Either(am, bm).init, w, y) && Either(am, bm).final(y)
  {
    hide Shuffled;
    var space := Either(am, bm);
    var a :| a in am.finals && Spells(am.arcs, 0, wu, a);
    var u :| Path(am.arcs, 0, u, a) && Word(u) == wu;
    var b :| b in bm.finals && Spells(bm.arcs, 0, wv, b);
    var v :| Path(bm.arcs, 0, v, b) && Word(v) == wv;
    var walk, y := ShuffleWalks(am, bm, space.init, u, a, v, b, w);
    assert WalksTo(space, space.init, w, y) && space.final(y);
  }

  // ---- The product ----

  lemma MovesNext(ps: set<Arc>, p: Arc, s: int)
    ensures MovesA(ps + {p}, s) == MovesA(ps, s) + {Move(p.letter, Triple(p.dst, s, 0))}
    ensures MovesB(ps + {p}, s) == MovesB(ps, s) + {Move(p.letter, Triple(s, p.dst, 0))}
  {
    assert p in ps + {p};
  }

  lemma MovesNone(s: int)
    ensures MovesA({}, s) == {} && MovesB({}, s) == {}
  {
  }

  lemma IsMove(am: Net, bm: Net, x: Triple, p: Arc)
    ensures p in ArcsAt(am.arcs, x.a) ==> Move(p.letter, Triple(p.dst, x.b, 0)) in Either(am, bm).next(x)
    ensures p in ArcsAt(bm.arcs, x.b) ==> Move(p.letter, Triple(x.a, p.dst, 0)) in Either(am, bm).next(x)
  {
    if p in ArcsAt(am.arcs, x.a) {
      assert Move(p.letter, Triple(p.dst, x.b, 0)) in MovesA(ArcsAt(am.arcs, x.a), x.b);
    }
    if p in ArcsAt(bm.arcs, x.b) {
      assert Move(p.letter, Triple(x.a, p.dst, 0)) in MovesB(ArcsAt(bm.arcs, x.b), x.a);
    }
  }

  // "Follow A, B stays".
  method FollowA(e: Explorer, ghost cur: nat, x: Triple, t1: seq<Line>, n1: nat, point1: seq<StateArr>, ghost bm: Net)
    requires IsNet(t1, n1) && PointersOK(point1, t1, n1) && 0 <= x.a < n1
    requires e.space == Either(Meaning(t1, n1), bm) && cur < |e.table.keys| && e.table.keys[cur] == x
             && e.Valid(cur, {})
    modifies e`stack, e`pushed, e.table, e.table.triplets, e.writer
    ensures e.Valid(cur, MovesA(ArcsAt(ArcsOf(t1), x.a), x.b)) && old(e.table.keys) <= e.table.keys
    ensures e.table.triplets == old(e.table.triplets) || fresh(e.table.triplets)
  {
    hide IsNet, PointersOK, ArcsOf, ArcsIn, Grouped, Explorer.Valid, MovesA, MovesB, ArcsAt;
    ghost var am := Meaning(t1, n1);
    NetLines(t1, n1);
    RowStart(t1, point1, n1, x.a);
    MovesNone(x.b);
    var first := point1[x.a].first;
    var i := first;
    while i < |t1| && t1[i].state == x.a
      invariant OnRow(t1, first, i, x.a) && first < |t1| && t1[first].state == x.a
      invariant e.Valid(cur, MovesA(ArcsIn(t1, first, i), x.b)) && old(e.table.keys) <= e.table.keys
      invariant e.table.triplets == old(e.table.triplets) || fresh(e.table.triplets)
    {
      ghost var ps := ArcsIn(t1, first, i);
      RowNext(t1, first, i, x.a);
      assert LineOK(t1[i], n1);
      assert ps + {} == ps;
      if t1[i].target != -1 {
        LineIsArc(t1, i);
        IsMove(am, bm, x, LineArc(t1[i]));
        MovesNext(ps, LineArc(t1[i]), x.b);
        e.Add(t1[i].inp, t1[i].outp, Triple(t1[i].target, x.b, 0), cur, MovesA(ps, x.b));
      }
      i := i + 1;
    }
    NetRow(t1, n1, first, i, x.a);
  }

  // "Follow B, A stays".
  method FollowB(e: Explorer, ghost cur: nat, x: Triple, ghost base: set<Move>, ghost am: Net, t2: seq<Line>, n2: nat,
                 point2: seq<StateArr>)
    requires IsNet(t2, n2) && PointersOK(point2, t2, n2) && 0 <= x.b < n2
    requires e.space == Either(am, Meaning(t2, n2)) && cur < |e.table.keys| && e.table.keys[cur] == x
             && e.Valid(cur, base)
    modifies e`stack, e`pushed, e.table, e.table.triplets, e.writer
    ensures e.Valid(cur, base + MovesB(ArcsAt(ArcsOf(t2), x.b), x.a)) && old(e.table.keys) <= e.table.keys
    ensures e.table.triplets == old(e.table.triplets) || fresh(e.table.triplets)
  {
    hide IsNet, PointersOK, ArcsOf, ArcsIn, Grouped, Explorer.Valid, MovesA, MovesB, ArcsAt;
    ghost var bm := Meaning(t2, n2);
    NetLines(t2, n2);
    RowStart(t2, point2, n2, x.b);
    MovesNone(x.a);
    assert base + {} == base;
    var first := point2[x.b].first;
    var i := first;
    while i < |t2| && t2[i].state == x.b
      invariant OnRow(t2, first, i, x.b) && first < |t2| && t2[first].state == x.b
      invariant e.Valid(cur, base + MovesB(ArcsIn(t2, first, i), x.a)) && old(e.table.keys) <= e.table.keys
      invariant e.table.triplets == old(e.table.triplets) || fresh(e.table.triplets)
    {
      ghost var qs := ArcsIn(t2, first, i);
      RowNext(t2, first, i, x.b);
      assert LineOK(t2[i], n2);
      assert qs + {} == qs;
      if t2[i].target != -1 {
        ghost var q := LineArc(t2[i]);
        LineIsArc(t2, i);
        IsMove(am, bm, x, q);
        MovesNext(qs, q, x.a);
        e.Add(t2[i].inp, t2[i].outp, Triple(x.a, t2[i].target, 0), cur, base + MovesB(qs, x.a));
        assert base + (MovesB(qs, x.a) + {Move(q.letter, Triple(x.a, q.dst, 0))}) == base + MovesB(qs, x.a)
               + {Move(q.letter, Triple(x.a, q.dst, 0))};
      }
      i := i + 1;
    }
    NetRow(t2, n2, first, i, x.b);
  }

  lemma PairsBounded(am: Net, bm: Net)
    requires Closed(am) && Closed(bm) && 0 in am.starts && 0 in bm.starts
    ensures Triple(0, 0, 0) in Intersect.PairStates(am.states, bm.states)
    ensures forall x, mv :: x in Intersect.PairStates(am.states, bm.states) && mv in Either(am, bm).next(x) ==>
              mv.to in Intersect.PairStates(am.states, bm.states)
  {
  }

  lemma Flagged(point1: seq<StateArr>, t1: seq<Line>, n1: nat, point2: seq<StateArr>, t2: seq<Line>, n2: nat, x: Triple)
    requires PointersOK(point1, t1, n1) && PointersOK(point2, t2, n2) && x in Intersect.PairStates(n1, n2)
    requires StartsOf(t1) == {0} && StartsOf(t2) == {0}
    ensures |point1| == n1 && |point2| == n2
    ensures point1[x.a].final && point2[x.b].final <==> x.a in FinalsOf(t1) && x.b in FinalsOf(t2)
    ensures point1[x.a].start && point2[x.b].start <==> x == Triple(0, 0, 0)
  {
  }

  // The loop of fsm_shuffle.
  method ShuffleNets(t1: seq<Line>, n1: nat, t2: seq<Line>, n2: nat)
    returns (out: seq<Line>, states: nat, ghost keys: seq<Triple>)
    requires IsNet(t1, n1) && StartsOf(t1) == {0} && IsNet(t2, n2) && StartsOf(t2) == {0}
    ensures IsNet(out, states) && InOrder(out)
            && IsExplored(Either(Meaning(t1, n1), Meaning(t2, n2)), Meaning(out, states), keys)
  {
    hide IsNet, PointersOK, Explorer.Valid, IsExplored, MovesA, MovesB;
    ghost var am, bm := Meaning(t1, n1), Meaning(t2, n2);
    NetLines(t1, n1);
    NetLines(t2, n2);
    var point1 := InitStatePointers(t1, n1);
    var point2 := InitStatePointers(t2, n2);
    PairsBounded(am, bm);
    var e := new Explorer(Either(am, bm), Intersect.PairStates(n1, n2), Triple(0, 0, 0));
    while e.stack != []
      invariant e.Valid(-1, {}) && fresh(e.table.triplets)
      decreases e.Left()
    {
      var x := e.stack[|e.stack| - 1];
      e.SomeLeft();
      e.TopKnown();
      Flagged(point1, t1, n1, point2, t2, n2, x);
      ghost var cur;
      x, cur := e.Open(point1[x.a].final && point2[x.b].final, point1[x.a].start && point2[x.b].start);
      FollowA(e, cur, x, t1, n1, point1, bm);
      FollowB(e, cur, x, MovesA(ArcsAt(am.arcs, x.a), x.b), am, t2, n2, point2);
      e.EndState(cur);
    }
    out, states := e.Close();
    keys := e.table.keys;
  }

  // What it accepts.
  method FsmShuffle(t1: seq<Line>, n1: nat, t2: seq<Line>, n2: nat)
    returns (out: seq<Line>, states: nat, ghost keys: seq<Triple>)
    requires IsNet(t1, n1) && StartsOf(t1) == {0} && IsNet(t2, n2) && StartsOf(t2) == {0}
    ensures IsNet(out, states) && InOrder(out)
            && IsExplored(Either(Meaning(t1, n1), Meaning(t2, n2)), Meaning(out, states), keys)
    ensures forall w :: Accepts(Meaning(out, states), w) <==>
              exists u, v :: Accepts(Meaning(t1, n1), u) && Accepts(Meaning(t2, n2), v) && Shuffled(w, u, v)
  {
    hide IsNet, IsExplored, Accepts, Shuffled, InOrder;
    out, states, keys := ShuffleNets(t1, n1, t2, n2);
    ghost var am, bm := Meaning(t1, n1), Meaning(t2, n2);
    forall w ensures Accepts(Meaning(out, states), w) <==> exists u, v :: Accepts(am, u) && Accepts(bm, v)
                                                                          && Shuffled(w, u, v) {
      ShuffleLanguage(am, bm, Meaning(out, states), keys, w);
    }
  }
}
