// What fsm_compose builds (bistate composition), on graphs: every pair of
// paths with the same string in the middle is interleaved in exactly one way.

module Composition {
  import opened Nets
  import opened TripletHash
  import opened Pointers
  import opened Explore

  // UNKNOWN and IDENTITY are looked up together.
  function Class(s: int): int {
    if s == IDENTITY then UNKNOWN else s
  }

  ghost predicate Meets(p: Arc, q: Arc) {
    Class(p.letter.outp) == Class(q.letter.inp) && q.letter.inp != EPSILON
  }

  // x:@ against ?:y becomes ?:y, and x:? against @:@ becomes x:?.
  function Join(p: Letter, q: Letter): Letter {
    Letter(if p.outp == IDENTITY && q.inp == UNKNOWN then UNKNOWN else p.inp,
           if p.outp == UNKNOWN && q.inp == IDENTITY then UNKNOWN else q.outp)
  }

  ghost function Matches(ps: set<Arc>, qs: set<Arc>): set<Move> {
    set p, q | p in ps && q in qs && Meets(p, q) :: Move(Join(p.letter, q.letter), Triple(p.dst, q.dst, 0))
  }

  ghost function Lefts(ps: set<Arc>, b: int, mode: int): set<Move> {
    set p | p in ps && p.letter.outp == EPSILON && mode == 0 :: Move(Letter(p.letter.inp, EPSILON), Triple(p.dst, b, 0))
  }

  ghost function Rights(qs: set<Arc>, a: int): set<Move> {
    set q | q in qs && q.letter.inp == EPSILON :: Move(Letter(EPSILON, q.letter.outp), Triple(a, q.dst, 1))
  }

  // States are (a, b, mode); x:0 arcs are followed only in mode 0, and 0:y
  // arcs lead to mode 1.
  ghost function Composed(am: Net, bm: Net): Space {
    Space(Triple(0, 0, 0),
          (x: Triple) => Matches(ArcsAt(am.arcs, x.a), ArcsAt(bm.arcs, x.b)) + Lefts(ArcsAt(am.arcs, x.a), x.b, x.c)
              + Rights(ArcsAt(bm.arcs, x.b), x.a),
          (x: Triple) => x.a in am.finals && x.b in bm.finals)
  }

  // ---- Joint walks ----

  datatype Joint = Match(p: Arc, q: Arc) | Left(p: Arc) | Right(q: Arc)

  ghost predicate JointStep(am: Net, bm: Net, x: Triple, j: Joint) {
    match j
    case Match(p, q) => p in am.arcs && p.src == x.a && q in bm.arcs && q.src == x.b && Meets(p, q)
    case Left(p) => p in am.arcs && p.src == x.a && p.letter.outp == EPSILON && x.c == 0
    case Right(q) => q in bm.arcs && q.src == x.b && q.letter.inp == EPSILON
  }

  ghost function Target(x: Triple, j: Joint): Triple {
    match j
    case Match(p, q) => Triple(p.dst, q.dst, 0)
    case Left(p) => Triple(p.dst, x.b, 0)
    case Right(q) => Triple(x.a, q.dst, 1)
  }

  ghost function JointLetter(j: Joint): Letter {
    match j
    case Match(p, q) => Join(p.letter, q.letter)
    case Left(p) => Letter(p.letter.inp, EPSILON)
    case Right(q) => Letter(EPSILON, q.letter.outp)
  }

  ghost predicate JointWalk(am: Net, bm: Net, x: Triple, js: seq<Joint>, y: Triple)
    decreases js
  {
    if js == [] then x == y else JointStep(am, bm, x, js[0]) && JointWalk(am, bm, Target(x, js[0]), js[1..], y)
  }

  ghost function LeftPath(js: seq<Joint>): seq<Arc> {
    if js == [] then [] else (if js[0].Right? then [] else [js[0].p]) + LeftPath(js[1..])
  }

  ghost function RightPath(js: seq<Joint>): seq<Arc> {
    if js == [] then [] else (if js[0].Left? then [] else [js[0].q]) + RightPath(js[1..])
  }

  ghost function MoveOf(x: Triple, j: Joint): Move {
    Move(JointLetter(j), Target(x, j))
  }

  // The moves of a state are its joint steps.
  lemma MovesAreJoint(am: Net, bm: Net, x: Triple, mv: Move)
    ensures mv in Composed(am, bm).next(x) <==> exists j :: JointStep(am, bm, x, j) && MoveOf(x, j) == mv
  {
    var as0, bs := ArcsAt(am.arcs, x.a), ArcsAt(bm.arcs, x.b);
    if mv in Matches(as0, bs) {
      var p, q :| p in as0 && q in bs && Meets(p, q) && mv == Move(Join(p.letter, q.letter), Triple(p.dst, q.dst, 0));
      assert JointStep(am, bm, x, Match(p, q)) && MoveOf(x, Match(p, q)) == mv;
    } else if mv in Lefts(as0, x.b, x.c) {
      var p :| p in as0 && p.letter.outp == EPSILON && x.c == 0
               && mv == Move(Letter(p.letter.inp, EPSILON), Triple(p.dst, x.b, 0));
      assert JointStep(am, bm, x, Left(p)) && MoveOf(x, Left(p)) == mv;
    } else if mv in Rights(bs, x.a) {
      var q :| q in bs && q.letter.inp == EPSILON && mv == Move(Letter(EPSILON, q.letter.outp), Triple(x.a, q.dst, 1));
      assert JointStep(am, bm, x, Right(q)) && MoveOf(x, Right(q)) == mv;
    }
    if j :| JointStep(am, bm, x, j) && MoveOf(x, j) == mv {
      match j
      case Match(p, q) => assert p in as0 && q in bs;
      case Left(p) => assert p in as0;
      case Right(q) => assert q in bs;
    }
  }

  // ---- The one interleaving ----

  // x:0 arcs first, then 0:y arcs, then a match.
  ghost function Interleave(u: seq<Arc>, v: seq<Arc>): seq<Joint>
    decreases |u| + |v|
  {
    if u != [] && u[0].letter.outp == EPSILON then [Left(u[0])] + Interleave(u[1..], v)
    else if v != [] && v[0].letter.inp == EPSILON then [Right(v[0])] + Interleave(u, v[1..])
    else if u != [] && v != [] then [Match(u[0], v[0])] + Interleave(u[1..], v[1..])
    else []
  }

  // The string on one side of a path, with the classes of ? and @ merged.
  ghost function Lower(path: seq<Arc>): seq<int> {
    if path == [] then []
    else (if path[0].letter.outp == EPSILON then [] else [Class(path[0].letter.outp)]) + Lower(path[1..])
  }

  ghost function Upper(path: seq<Arc>): seq<int> {
    if path == [] then []
    else (if path[0].letter.inp == EPSILON then [] else [Class(path[0].letter.inp)]) + Upper(path[1..])
  }

  lemma {:induction false} InterleaveExists(am: Net, bm: Net, x: Triple, u: seq<Arc>, a: int, v: seq<Arc>, b: int)
    returns (y: Triple)
    requires Path(am.arcs, x.a, u, a) && Path(bm.arcs, x.b, v, b) && Lower(u) == Upper(v)
    requires x.c == 0 || u == [] || u[0].letter.outp != EPSILON
    ensures JointWalk(am, bm, x, Interleave(u, v), y) && y.a == a && y.b == b
    ensures LeftPath(Interleave(u, v)) == u && RightPath(Interleave(u, v)) == v
    decreases |u| + |v|
  {
    LowerNext(u);
    UpperNext(v);
    hide Lower, Upper, Class, JointWalk, LeftPath, RightPath;
    if u != [] && u[0].letter.outp == EPSILON {
      y := InterleaveExists(am, bm, Target(x, Left(u[0])), u[1..], a, v, b);
      WalkCons(am, bm, x, Left(u[0]), Interleave(u[1..], v), y);
    } else if v != [] && v[0].letter.inp == EPSILON {
      y := InterleaveExists(am, bm, Target(x, Right(v[0])), u, a, v[1..], b);
      WalkCons(am, bm, x, Right(v[0]), Interleave(u, v[1..]), y);
    } else if u != [] && v != [] {
      y := InterleaveExists(am, bm, Target(x, Match(u[0], v[0])), u[1..], a, v[1..], b);
      WalkCons(am, bm, x, Match(u[0], v[0]), Interleave(u[1..], v[1..]), y);
    } else {
      y := x;
      WalkNone(am, bm, x);
    }
  }

  lemma LowerNext(u: seq<Arc>)
    ensures u == [] ==> Lower(u) == []
    ensures u != [] && u[0].letter.outp == EPSILON ==> Lower(u) == Lower(u[1..])
    ensures u != [] && u[0].letter.outp != EPSILON ==>
              Lower(u) != [] && Lower(u)[0] == Class(u[0].letter.outp) && Lower(u)[1..] == Lower(u[1..])
  {
  }

  lemma UpperNext(v: seq<Arc>)
    ensures v == [] ==> Upper(v) == []
    ensures v != [] && v[0].letter.inp == EPSILON ==> Upper(v) == Upper(v[1..])
    ensures v != [] && v[0].letter.inp != EPSILON ==>
              Upper(v) != [] && Upper(v)[0] == Class(v[0].letter.inp) && Upper(v)[1..] == Upper(v[1..])
  {
  }

  lemma WalkCons(am: Net, bm: Net, x: Triple, j: Joint, js: seq<Joint>, y: Triple)
    requires JointStep(am, bm, x, j) && JointWalk(am, bm, Target(x, j), js, y)
    ensures JointWalk(am, bm, x, [j] + js, y)
    ensures LeftPath([j] + js) == (if j.Right? then [] else [j.p]) + LeftPath(js)
    ensures RightPath([j] + js) == (if j.Left? then [] else [j.q]) + RightPath(js)
  {
    assert ([j] + js)[1..] == js;
  }

  lemma WalkNone(am: Net, bm: Net, x: Triple)
    ensures JointWalk(am, bm, x, [], x) && LeftPath([]) == [] && RightPath([]) == []
  {
  }

  // In mode 1 the next arc of the first net is part of a match.
  lemma {:induction false} ModeOne(am: Net, bm: Net, x: Triple, js: seq<Joint>, y: Triple)
    requires JointWalk(am, bm, x, js, y) && x.c == 1
    ensures LeftPath(js) == [] || LeftPath(js)[0].letter.outp != EPSILON
    decreases js
  {
    if js != [] && js[0].Right? {
      ModeOne(am, bm, Target(x, js[0]), js[1..], y);
    }
  }

  lemma {:induction false} InterleaveUnique(am: Net, bm: Net, x: Triple, js: seq<Joint>, y: Triple)
    requires JointWalk(am, bm, x, js, y)
    ensures js == Interleave(LeftPath(js), RightPath(js))
    ensures Path(am.arcs, x.a, LeftPath(js), y.a) && Path(bm.arcs, x.b, RightPath(js), y.b)
    ensures Lower(LeftPath(js)) == Upper(RightPath(js))
    decreases js
  {
    if js != [] {
      var j, rest := js[0], js[1..];
      assert js == [j] + rest;
      InterleaveUnique(am, bm, Target(x, j), rest, y);
      WalkCons(am, bm, x, j, rest, y);
      if j.Right? {
        ModeOne(am, bm, Target(x, j), rest, y);
      }
      hide JointWalk, LeftPath, RightPath, Lower, Upper, Class;
      InterleaveCons(am, bm, x, j, LeftPath(rest), RightPath(rest), y);
    }
  }

  lemma InterleaveCons(am: Net, bm: Net, x: Triple, j: Joint, u: seq<Arc>, v: seq<Arc>, y: Triple)
    requires JointStep(am, bm, x, j) && Lower(u) == Upper(v)
    requires Path(am.arcs, Target(x, j).a, u, y.a) && Path(bm.arcs, Target(x, j).b, v, y.b)
    requires j.Right? ==> u == [] || u[0].letter.outp != EPSILON
    ensures var u', v' := (if j.Right? then [] else [j.p]) + u, (if j.Left? then [] else [j.q]) + v;
            && Interleave(u', v') == [j] + Interleave(u, v)
            && Path(am.arcs, x.a, u', y.a) && Path(bm.arcs, x.b, v', y.b) && Lower(u') == Upper(v')
  {
    var u', v' := (if j.Right? then [] else [j.p]) + u, (if j.Left? then [] else [j.q]) + v;
    assert j.Right? ==> u' == u;
    assert !j.Right? ==> u'[1..] == u;
    assert j.Left? ==> v' == v;
    assert !j.Left? ==> v'[1..] == v;
    LowerNext(u');
    UpperNext(v');
    hide Lower, Upper;
    if j.Match? {
      assert Lower(u') == [Class(j.p.letter.outp)] + Lower(u);
      assert Upper(v') == [Class(j.q.letter.inp)] + Upper(v);
    }
  }

  // A joint walk from the start whose projections are u and v.
  ghost predicate Interleaves(am: Net, bm: Net, js: seq<Joint>, u: seq<Arc>, v: seq<Arc>) {
    LeftPath(js) == u && RightPath(js) == v && exists y :: JointWalk(am, bm, Triple(0, 0, 0), js, y)
  }

  // Exactly one joint walk projects to a pair of paths that agree in the middle.
  lemma OneInterleaving(am: Net, bm: Net, u: seq<Arc>, a: int, v: seq<Arc>, b: int)
    requires Path(am.arcs, 0, u, a) && Path(bm.arcs, 0, v, b)
    ensures forall js :: Interleaves(am, bm, js, u, v) <==> Lower(u) == Upper(v) && js == Interleave(u, v)
  {
    var x := Triple(0, 0, 0);
    if Lower(u) == Upper(v) {
      var y := InterleaveExists(am, bm, x, u, a, v, b);
      assert JointWalk(am, bm, x, Interleave(u, v), y);
      assert Interleaves(am, bm, Interleave(u, v), u, v);
    }
    forall js | Interleaves(am, bm, js, u, v) ensures js == Interleave(u, v) && Lower(u) == Upper(v) {
      var y :| JointWalk(am, bm, x, js, y);
      InterleaveUnique(am, bm, x, js, y);
    }
  }

  // ---- Walks of the product ----

  ghost function JointLabel(js: seq<Joint>): seq<Letter> {
    if js == [] then []
    else (if JointLetter(js[0]) == EPS then [] else [JointLetter(js[0])]) + JointLabel(js[1..])
  }

  lemma {:induction false} WalkIsJoint(am: Net, bm: Net, x: Triple, walk: seq<Move>, y: Triple) returns (js: seq<Joint>)
    requires Walk(Composed(am, bm), x, walk, y)
    ensures JointWalk(am, bm, x, js, y) && JointLabel(js) == Label(walk)
    decreases walk
  {
    if walk == [] {
      js := [];
    } else {
      MovesAreJoint(am, bm, x, walk[0]);
      var j :| JointStep(am, bm, x, j) && MoveOf(x, j) == walk[0];
      var rest := WalkIsJoint(am, bm, walk[0].to, walk[1..], y);
      js := [j] + rest;
      assert js[1..] == rest;
    }
  }

  lemma {:induction false} JointIsWalk(am: Net, bm: Net, x: Triple, js: seq<Joint>, y: Triple) returns (walk: seq<Move>)
    requires JointWalk(am, bm, x, js, y)
    ensures Walk(Composed(am, bm), x, walk, y) && JointLabel(js) == Label(walk)
    decreases js
  {
    if js == [] {
      walk := [];
    } else {
      MovesAreJoint(am, bm, x, MoveOf(x, js[0]));
      var rest := JointIsWalk(am, bm, Target(x, js[0]), js[1..], y);
      walk := [MoveOf(x, js[0])] + rest;
      assert walk[1..] == rest;
    }
  }
}
