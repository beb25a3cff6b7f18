// fsm_cross_product (constructions.c): both nets move together, and a net in a
// final state may wait while the other finishes.

module CrossProduct {
  import opened Nets
  import opened TripletHash
  import opened Pointers
  import opened Explore
  import opened Order
  import opened Options
  import opened Alphabets
  import Intersect
  import Relations

  // @ opposite another symbol becomes ?.
  function Sync(s: int, t: int): Letter {
    Letter(if s == IDENTITY && t != IDENTITY then UNKNOWN else s, if t == IDENTITY && s != IDENTITY then UNKNOWN else t)
  }

  function Opposite0(s: int): int {
    if s == IDENTITY then UNKNOWN else s
  }

  // The moves for one line of a and one line of b; either may lack an arc.
  ghost function CellMoves(p: Line, q: Line): set<Move> {
    (if p.target != -1 && q.target != -1 then {Move(Sync(p.inp, q.inp), Triple(p.target, q.target, 0))} else {})
    + (if p.target != -1 && q.target != -1 && p.inp == IDENTITY && q.inp == IDENTITY
       then {Move(Letter(UNKNOWN, UNKNOWN), Triple(p.target, q.target, 0))} else {})
    + (if p.final && q.target != -1 then {Move(Letter(EPSILON, Opposite0(q.inp)), Triple(p.state, q.target, 0))}
                                         else {})
    + (if q.final && p.target != -1 then {Move(Letter(Opposite0(p.inp), EPSILON), Triple(p.target, q.state, 0))}
                                         else {})
  }

  // The moves for line p against lines lo..hi of the second net.
  ghost function RowMoves(p: Line, t2: seq<Line>, lo: nat, hi: nat): set<Move>
    requires lo <= hi <= |t2|
  {
    set j, mv | lo <= j < hi && mv in CellMoves(p, t2[j]) :: mv
  }

  ghost function AreaMoves(t1: seq<Line>, lo: nat, hi: nat, t2: seq<Line>, lo2: nat, hi2: nat): set<Move>
    requires lo <= hi <= |t1| && lo2 <= hi2 <= |t2|
  {
    set i, mv | lo <= i < hi && mv in RowMoves(t1[i], t2, lo2, hi2) :: mv
  }

  ghost function PairMoves(t1: seq<Line>, t2: seq<Line>, a: int, b: int): set<Move> {
    set i, j, mv | 0 <= i < |t1| && 0 <= j < |t2| && t1[i].state == a && t2[j].state == b
        && mv in CellMoves(t1[i], t2[j]) :: mv
  }

  ghost function Crossed(t1: seq<Line>, t2: seq<Line>): Space {
    Space(Triple(0, 0, 0),
          (x: Triple) => PairMoves(t1, t2, x.a, x.b),
          (x: Triple) => x.a in FinalsOf(t1) && x.b in FinalsOf(t2))
  }

  // ---- The relation: all pairs ----

  // No ? on the input side, and only letters of the alphabet.
  ghost predicate KnownInput(m: Net, s: seq<Sym>) {
    forall p :: p in m.arcs ==> p.letter.inp != UNKNOWN && LetterOK(s, p.letter)
  }

  // m accepts something with this string on the input side.
  ghost predicate HasInput(m: Net, s: seq<Sym>, x: seq<string>) {
    exists w :: OpenAccepts(m, s, w) && Inputs(w) == x
  }

  // The inputs of the arcs stand for these symbols, or none.
  ghost predicate InputReads(s: seq<Sym>, u: seq<Arc>, xs: seq<Option<string>>) {
    |xs| == |u| && forall i :: 0 <= i < |u| ==> Stands(s, u[i].letter.inp, xs[i])
  }

  function Tape(xs: seq<Option<string>>): seq<string> {
    if xs == [] then [] else Symbols(xs[0]) + Tape(xs[1..])
  }

  lemma TapeCons(x: Option<string>, xs: seq<Option<string>>)
    ensures Tape([x] + xs) == Symbols(x) + Tape(xs)
  {
    assert ([x] + xs)[1..] == xs;
  }

  lemma InputMore(s: seq<Sym>, p: Arc, u: seq<Arc>, x: Option<string>, xs: seq<Option<string>>)
    requires InputReads(s, u, xs) && Stands(s, p.letter.inp, x)
    ensures InputReads(s, [p] + u, [x] + xs)
  {
    hide Stands;
  }

  // There is something for the output of a letter to stand for.
  lemma SomeOutput(s: seq<Sym>, l: Letter, x: Option<string>) returns (y: Option<string>)
    requires LetterOK(s, l) && Stands(s, l.inp, x)
    ensures Denotes(s, l, x, y)
  {
    if l.outp == EPSILON {
      y := None;
    } else if l.outp == IDENTITY {
      y := x;
    } else if l.outp == UNKNOWN {
      var other := AnotherUnknown(s, if x.Some? then x.value else "", "");
      y := Some(other);
    } else {
      var k :| 0 <= k < |s| && s[k].number == l.outp;
      y := Some(s[k].symbol);
      assert Named(s, l.outp, s[k].symbol);
    }
  }

  lemma {:induction false} ReadInput(m: Net, s: seq<Sym>, p: int, u: seq<Arc>, f: int, xs: seq<Option<string>>)
    returns (w: seq<Pair>)
    requires KnownInput(m, s) && Path(m.arcs, p, u, f) && InputReads(s, u, xs)
    ensures Reads(s, Word(u), w) && Inputs(w) == Tape(xs)
    decreases u
  {
    hide Stands, LetterOK, Denotes;
    if u == [] {
      w := [];
    } else {
      var rest := ReadInput(m, s, u[0].dst, u[1..], f, xs[1..]);
      var y := SomeOutput(s, u[0].letter, xs[0]);
      if u[0].letter == EPS {
        Relations.EpsilonPair(s, Pair(xs[0], y));
        assert [] + Word(u[1..]) == Word(u[1..]);
        w := rest;
      } else {
        w := [Pair(xs[0], y)] + rest;
        Relations.ReadsMore(s, u[0].letter, Word(u[1..]), Pair(xs[0], y), rest);
        TapesCons(Pair(xs[0], y), rest);
      }
    }
  }

  lemma {:induction false} InputRead(s: seq<Sym>, u: seq<Arc>, w: seq<Pair>) returns (xs: seq<Option<string>>)
    requires Reads(s, Word(u), w)
    ensures InputReads(s, u, xs) && Tape(xs) == Inputs(w)
    decreases u
  {
    hide Stands, Denotes;
    if u == [] {
      xs := [];
    } else if u[0].letter == EPS {
      assert [] + Word(u[1..]) == Word(u[1..]);
      xs := InputRead(s, u[1..], w);
      NoneIsEpsilon(s);
      InputMore(s, u[0], u[1..], None, xs);
      TapeCons(None, xs);
      assert [] + Tape(xs) == Tape(xs) && [u[0]] + u[1..] == u;
      xs := [None] + xs;
    } else {
      Relations.ReadsSplit(s, u[0].letter, Word(u[1..]), w);
      xs := InputRead(s, u[1..], w[1..]);
      FirstStands(s, u[0].letter, w[0]);
      InputMore(s, u[0], u[1..], w[0].x, xs);
      TapeCons(w[0].x, xs);
      TapesCons(w[0], w[1..]);
      assert [u[0]] + u[1..] == u;
      xs := [w[0].x] + xs;
    }
  }

  lemma NoneIsEpsilon(s: seq<Sym>)
    ensures Stands(s, EPSILON, None)
  {
  }

  lemma FirstStands(s: seq<Sym>, l: Letter, xy: Pair)
    requires Denotes(s, l, xy.x, xy.y)
    ensures Stands(s, l.inp, xy.x)
  {
  }

  // A move of the product that reads x opposite y.
  ghost predicate Step(am: Net, bm: Net, s: seq<Sym>, at: Triple, to: Triple, x: Option<string>, y: Option<string>) {
    || (exists p, q :: p in ArcsAt(am.arcs, at.a) && q in ArcsAt(bm.arcs, at.b) && to == Triple(p.dst, q.dst, 0)
                       && Stands(s, p.letter.inp, x) && Stands(s, q.letter.inp, y))
    || (at.a in am.finals && x.None? && exists q :: q in ArcsAt(bm.arcs, at.b) && to == Triple(at.a, q.dst, 0)
                                                    && Stands(s, q.letter.inp, y))
    || (at.b in bm.finals && y.None? && exists p :: p in ArcsAt(am.arcs, at.a) && to == Triple(p.dst, at.b, 0)
                                                    && Stands(s, p.letter.inp, x))
  }

  lemma CellIsStep(t1: seq<Line>, n1: nat, t2: seq<Line>, n2: nat, s: seq<Sym>, i: nat, j: nat, mv: Move,
                   x: Option<string>, y: Option<string>)
    requires IsTable(t1, n1) && IsTable(t2, n2) && i < |t1| && j < |t2|
    requires mv in CellMoves(t1[i], t2[j]) && Denotes(s, mv.letter, x, y)
    ensures Step(Meaning(t1, n1), Meaning(t2, n2), s, Triple(t1[i].state, t2[j].state, 0), mv.to, x, y)
  {
    var p, q := t1[i], t2[j];
    if p.target != -1 {
      LineIsArc(t1, i);
    }
    if q.target != -1 {
      LineIsArc(t2, j);
    }
    assert p.final ==> p.state in FinalsOf(t1);
    assert q.final ==> q.state in FinalsOf(t2);
    if p.target != -1 && q.target != -1
       && (mv == Move(Sync(p.inp, q.inp), Triple(p.target, q.target, 0))
           || (p.inp == IDENTITY && q.inp == IDENTITY
               && mv == Move(Letter(UNKNOWN, UNKNOWN), Triple(p.target, q.target, 0)))) {
      assert Stands(s, LineArc(p).letter.inp, x) && Stands(s, LineArc(q).letter.inp, y);
    } else if p.final && q.target != -1 && mv == Move(Letter(EPSILON, Opposite0(q.inp)), Triple(p.state, q.target, 0)) {
      assert Stands(s, LineArc(q).letter.inp, y);
    } else {
      assert Stands(s, LineArc(p).letter.inp, x);
    }
  }

  // The letter for two inputs and what they stand for.
  function LetterFor(p: int, q: int, same: bool): Letter {
    if p == IDENTITY && q == IDENTITY && !same then Letter(UNKNOWN, UNKNOWN) else Sync(p, q)
  }

  lemma StepIsCell(t1: seq<Line>, n1: nat, t2: seq<Line>, n2: nat, s: seq<Sym>, at: Triple, to: Triple,
                   x: Option<string>, y: Option<string>) returns (mv: Move)
    requires IsTable(t1, n1) && IsTable(t2, n2) && KnownInput(Meaning(t1, n1), s) && KnownInput(Meaning(t2, n2), s)
    requires 0 <= at.a < n1 && 0 <= at.b < n2 && Step(Meaning(t1, n1), Meaning(t2, n2), s, at, to, x, y)
    ensures mv in PairMoves(t1, t2, at.a, at.b) && mv.to == to && Denotes(s, mv.letter, x, y)
  {
    hide IsTable, PairMoves, Denotes, Stands, KnownInput;
    var am, bm := Meaning(t1, n1), Meaning(t2, n2);
    if p, q :| p in ArcsAt(am.arcs, at.a) && q in ArcsAt(bm.arcs, at.b) && to == Triple(p.dst, q.dst, 0)
               && Stands(s, p.letter.inp, x) && Stands(s, q.letter.inp, y) {
      mv := BothMove(t1, n1, t2, n2, s, p, q, x, y);
    } else if q :| at.a in am.finals && x.None? && q in ArcsAt(bm.arcs, at.b) && to == Triple(at.a, q.dst, 0)
                   && Stands(s, q.letter.inp, y) {
      mv := FirstWaits(t1, t2, s, at.a, q, y);
    } else {
      var p :| at.b in bm.finals && y.None? && p in ArcsAt(am.arcs, at.a) && to == Triple(p.dst, at.b, 0)
               && Stands(s, p.letter.inp, x);
      mv := SecondWaits(t1, t2, s, at.b, p, x);
    }
  }

  lemma ArcLine(t: seq<Line>, p: Arc) returns (i: nat)
    requires p in ArcsOf(t)
    ensures i < |t| && t[i].target == p.dst != -1 && t[i].state == p.src && t[i].inp == p.letter.inp
  {
    i :| 0 <= i < |t| && t[i].target != -1 && LineArc(t[i]) == p;
  }

  lemma CellInPair(t1: seq<Line>, t2: seq<Line>, i: nat, j: nat, a: int, b: int)
    requires i < |t1| && j < |t2| && t1[i].state == a && t2[j].state == b
    ensures CellMoves(t1[i], t2[j]) <= PairMoves(t1, t2, a, b)
  {
    hide CellMoves;
  }

  lemma LetterDenotes(s: seq<Sym>, p: int, q: int, x: Option<string>, y: Option<string>)
    requires p != UNKNOWN && q != UNKNOWN && Stands(s, p, x) && Stands(s, q, y)
    ensures Denotes(s, LetterFor(p, q, x == y), x, y)
  {
  }

  lemma BothMove(t1: seq<Line>, n1: nat, t2: seq<Line>, n2: nat, s: seq<Sym>, p: Arc, q: Arc, x: Option<string>,
                 y: Option<string>) returns (mv: Move)
    requires p in ArcsOf(t1) && q in ArcsOf(t2) && KnownInput(Meaning(t1, n1), s) && KnownInput(Meaning(t2, n2), s)
    requires Stands(s, p.letter.inp, x) && Stands(s, q.letter.inp, y)
    ensures mv in PairMoves(t1, t2, p.src, q.src) && mv.to == Triple(p.dst, q.dst, 0) && Denotes(s, mv.letter, x, y)
  {
    hide PairMoves, Denotes, Stands, LetterOK;
    var i := ArcLine(t1, p);
    var j := ArcLine(t2, q);
    mv := Move(LetterFor(p.letter.inp, q.letter.inp, x == y), Triple(p.dst, q.dst, 0));
    LetterDenotes(s, p.letter.inp, q.letter.inp, x, y);
    CellInPair(t1, t2, i, j, p.src, q.src);
    assert mv in CellMoves(t1[i], t2[j]);
  }

  lemma FinalLine(t: seq<Line>, a: int) returns (i: nat)
    requires a in FinalsOf(t)
    ensures i < |t| && t[i].final && t[i].state == a
  {
    i :| 0 <= i < |t| && t[i].final && t[i].state == a;
  }

  lemma WaitingDenotes(s: seq<Sym>, q: int, y: Option<string>)
    requires Stands(s, q, y)
    ensures Denotes(s, Letter(EPSILON, Opposite0(q)), None, y) && Denotes(s, Letter(Opposite0(q), EPSILON), y, None)
  {
  }

  lemma FirstWaits(t1: seq<Line>, t2: seq<Line>, s: seq<Sym>, a: int, q: Arc, y: Option<string>) returns (mv: Move)
    requires a in FinalsOf(t1) && q in ArcsOf(t2) && Stands(s, q.letter.inp, y)
    ensures mv in PairMoves(t1, t2, a, q.src) && mv.to == Triple(a, q.dst, 0) && Denotes(s, mv.letter, None, y)
  {
    hide PairMoves, Denotes, Stands;
    var i := FinalLine(t1, a);
    var j := ArcLine(t2, q);
    mv := Move(Letter(EPSILON, Opposite0(q.letter.inp)), Triple(a, q.dst, 0));
    WaitingDenotes(s, q.letter.inp, y);
    CellInPair(t1, t2, i, j, a, q.src);
    assert mv in CellMoves(t1[i], t2[j]);
  }

  lemma SecondWaits(t1: seq<Line>, t2: seq<Line>, s: seq<Sym>, b: int, p: Arc, x: Option<string>) returns (mv: Move)
    requires b in FinalsOf(t2) && p in ArcsOf(t1) && Stands(s, p.letter.inp, x)
    ensures mv in PairMoves(t1, t2, p.src, b) && mv.to == Triple(p.dst, b, 0) && Denotes(s, mv.letter, x, None)
  {
    hide PairMoves, Denotes, Stands;
    var i := ArcLine(t1, p);
    var j := FinalLine(t2, b);
    mv := Move(Letter(Opposite0(p.letter.inp), EPSILON), Triple(p.dst, b, 0));
    WaitingDenotes(s, p.letter.inp, x);
    CellInPair(t1, t2, i, j, p.src, b);
    assert mv in CellMoves(t1[i], t2[j]);
  }

  lemma MoveIsStep(t1: seq<Line>, n1: nat, t2: seq<Line>, n2: nat, s: seq<Sym>, at: Triple, mv: Move,
                   x: Option<string>, y: Option<string>)
    requires IsTable(t1, n1) && IsTable(t2, n2) && mv in Crossed(t1, t2).next(at) && Denotes(s, mv.letter, x, y)
    ensures Step(Meaning(t1, n1), Meaning(t2, n2), s, at, mv.to, x, y)
  {
    hide IsTable, CellMoves, Denotes;
    var i, j :| 0 <= i < |t1| && 0 <= j < |t2| && t1[i].state == at.a && t2[j].state == at.b
                && mv in CellMoves(t1[i], t2[j]);
    CellIsStep(t1, n1, t2, n2, s, i, j, mv, x, y);
    assert Step(Meaning(t1, n1), Meaning(t2, n2), s, Triple(at.a, at.b, 0), mv.to, x, y);
  }

  // A walk that reads pairs is a pair of paths that read the two tapes.
  lemma {:induction false} WalkPaths(t1: seq<Line>, n1: nat, t2: seq<Line>, n2: nat, s: seq<Sym>, at: Triple,
                                     walk: seq<Move>, end: Triple, w: seq<Pair>)
    returns (u: seq<Arc>, xs: seq<Option<string>>, v: seq<Arc>, ys: seq<Option<string>>)
    requires IsTable(t1, n1) && IsTable(t2, n2) && Walk(Crossed(t1, t2), at, walk, end) && Reads(s, Label(walk), w)
    ensures Path(ArcsOf(t1), at.a, u, end.a) && InputReads(s, u, xs) && Tape(xs) == Inputs(w)
    ensures Path(ArcsOf(t2), at.b, v, end.b) && InputReads(s, v, ys) && Tape(ys) == Outputs(w)
    decreases walk
  {
    hide IsTable, PairMoves, Denotes, Step, Crossed, InputReads, Tape, Inputs, Outputs, Reads, Symbols;
    if walk == [] {
      u, xs, v, ys := [], [], [], [];
      NothingCrossed(s, w);
    } else {
      var mv := walk[0];
      assert walk == [mv] + walk[1..];
      var xy, rest := MoveSplit(s, mv, walk[1..], w);
      MoveIsStep(t1, n1, t2, n2, s, at, mv, xy.x, xy.y);
      u, xs, v, ys := WalkPaths(t1, n1, t2, n2, s, mv.to, walk[1..], end, rest);
      u, xs, v, ys := StepPaths(Meaning(t1, n1), Meaning(t2, n2), s, at, mv.to, xy, u, xs, v, ys, end);
    }
  }

  lemma NothingCrossed(s: seq<Sym>, w: seq<Pair>)
    requires Reads(s, Label([]), w)
    ensures InputReads(s, [], []) && Tape([]) == [] == Inputs(w) && Outputs(w) == [] && w == []
  {
  }

  lemma MoveSplit(s: seq<Sym>, mv: Move, walk: seq<Move>, w: seq<Pair>) returns (xy: Pair, w': seq<Pair>)
    requires Reads(s, Label([mv] + walk), w)
    ensures Reads(s, Label(walk), w') && Denotes(s, mv.letter, xy.x, xy.y)
    ensures Inputs(w) == Symbols(xy.x) + Inputs(w') && Outputs(w) == Symbols(xy.y) + Outputs(w')
  {
    assert ([mv] + walk)[1..] == walk;
    if mv.letter == EPS {
      assert [] + Label(walk) == Label(walk);
      xy, w' := Pair(None, None), w;
      Relations.EpsilonPair(s, xy);
    } else {
      hide Denotes;
      Relations.ReadsSplit(s, mv.letter, Label(walk), w);
      xy, w' := w[0], w[1..];
      TapesCons(xy, w');
    }
  }

  lemma MoveMore(s: seq<Sym>, mv: Move, walk: seq<Move>, xy: Pair, w: seq<Pair>) returns (w': seq<Pair>)
    requires Reads(s, Label(walk), w) && Denotes(s, mv.letter, xy.x, xy.y)
    ensures Reads(s, Label([mv] + walk), w')
    ensures Inputs(w') == Symbols(xy.x) + Inputs(w) && Outputs(w') == Symbols(xy.y) + Outputs(w)
  {
    hide Denotes;
    assert ([mv] + walk)[1..] == walk;
    if mv.letter == EPS {
      Relations.EpsilonPair(s, xy);
      assert [] + Label(walk) == Label(walk);
      w' := w;
    } else {
      w' := [xy] + w;
      Relations.ReadsMore(s, mv.letter, Label(walk), xy, w);
      TapesCons(xy, w);
    }
  }

  lemma StepPaths(am: Net, bm: Net, s: seq<Sym>, at: Triple, to: Triple, xy: Pair, u: seq<Arc>,
                  xs: seq<Option<string>>, v: seq<Arc>, ys: seq<Option<string>>, end: Triple)
    returns (u': seq<Arc>, xs': seq<Option<string>>, v': seq<Arc>, ys': seq<Option<string>>)
    requires Step(am, bm, s, at, to, xy.x, xy.y)
    requires Path(am.arcs, to.a, u, end.a) && InputReads(s, u, xs) && Path(bm.arcs, to.b, v, end.b)
             && InputReads(s, v, ys)
    ensures Path(am.arcs, at.a, u', end.a) && InputReads(s, u', xs') && Tape(xs') == Symbols(xy.x) + Tape(xs)
    ensures Path(bm.arcs, at.b, v', end.b) && InputReads(s, v', ys') && Tape(ys') == Symbols(xy.y) + Tape(ys)
  {
    hide Stands, InputReads, Tape;
    u', xs', v', ys' := u, xs, v, ys;
    if p, q :| p in ArcsAt(am.arcs, at.a) && q in ArcsAt(bm.arcs, at.b) && to == Triple(p.dst, q.dst, 0)
               && Stands(s, p.letter.inp, xy.x) && Stands(s, q.letter.inp, xy.y) {
      u', xs' := PathMore(s, am, at.a, p, u, end.a, xy.x, xs);
      v', ys' := PathMore(s, bm, at.b, q, v, end.b, xy.y, ys);
    } else if q :| at.a in am.finals && xy.x.None? && q in ArcsAt(bm.arcs, at.b) && to == Triple(at.a, q.dst, 0)
                   && Stands(s, q.letter.inp, xy.y) {
      assert Symbols(xy.x) + Tape(xs) == Tape(xs);
      v', ys' := PathMore(s, bm, at.b, q, v, end.b, xy.y, ys);
    } else {
      var p :| at.b in bm.finals && xy.y.None? && p in ArcsAt(am.arcs, at.a) && to == Triple(p.dst, at.b, 0)
               && Stands(s, p.letter.inp, xy.x);
      assert Symbols(xy.y) + Tape(ys) == Tape(ys);
      u', xs' := PathMore(s, am, at.a, p, u, end.a, xy.x, xs);
    }
  }

  lemma PathMore(s: seq<Sym>, m: Net, at: int, p: Arc, u: seq<Arc>, f: int, x: Option<string>,
                 xs: seq<Option<string>>) returns (u': seq<Arc>, xs': seq<Option<string>>)
    requires p in ArcsAt(m.arcs, at) && Path(m.arcs, p.dst, u, f) && InputReads(s, u, xs)
             && Stands(s, p.letter.inp, x)
    ensures Path(m.arcs, at, u', f) && InputReads(s, u', xs') && Tape(xs') == Symbols(x) + Tape(xs)
  {
    assert ([p] + u)[1..] == u;
    u', xs' := [p] + u, [x] + xs;
    InputMore(s, p, u, x, xs);
    TapeCons(x, xs);
  }

  // Two paths to final states are a walk.
  lemma {:induction false} PathsWalk(t1: seq<Line>, n1: nat, t2: seq<Line>, n2: nat, s: seq<Sym>, at: Triple,
                                     u: seq<Arc>, xs: seq<Option<string>>, a: int, v: seq<Arc>,
                                     ys: seq<Option<string>>, b: int)
    returns (walk: seq<Move>, end: Triple, w: seq<Pair>)
    requires IsTable(t1, n1) && IsTable(t2, n2) && KnownInput(Meaning(t1, n1), s) && KnownInput(Meaning(t2, n2), s)
    requires 0 <= at.a < n1 && 0 <= at.b < n2 && a in FinalsOf(t1) && b in FinalsOf(t2)
    requires Path(ArcsOf(t1), at.a, u, a) && InputReads(s, u, xs) && Path(ArcsOf(t2), at.b, v, b)
             && InputReads(s, v, ys)
    ensures Walk(Crossed(t1, t2), at, walk, end) && end.a == a && end.b == b
    ensures Reads(s, Label(walk), w) && Inputs(w) == Tape(xs) && Outputs(w) == Tape(ys)
    decreases |u| + |v|
  {
    hide IsTable, PairMoves, KnownInput, Denotes, Stands, Reads;
    if u == [] && v == [] {
      walk, end, w := [], at, [];
      NothingCrossedYet(s);
    } else {
      TableIsClosed(t1, n1);
      TableIsClosed(t2, n2);
      var x, to, y := None, at, None;
      var u', xs', v', ys' := u, xs, v, ys;
      if u != [] {
        x, u', xs' := xs[0], u[1..], xs[1..];
        to := Triple(u[0].dst, to.b, 0);
      }
      if v != [] {
        y, v', ys' := ys[0], v[1..], ys[1..];
        to := Triple(to.a, v[0].dst, 0);
      }
      assert Step(Meaning(t1, n1), Meaning(t2, n2), s, at, to, x, y) by {
        assert u != [] ==> u[0] in ArcsAt(ArcsOf(t1), at.a);
        assert v != [] ==> v[0] in ArcsAt(ArcsOf(t2), at.b);
      }
      var mv := StepIsCell(t1, n1, t2, n2, s, at, to, x, y);
      walk, end, w := PathsWalk(t1, n1, t2, n2, s, to, u', xs', a, v', ys', b);
      w := MoveMore(s, mv, walk, Pair(x, y), w);
      assert ([mv] + walk)[1..] == walk;
      assert [] + Tape(xs) == Tape(xs) && [] + Tape(ys) == Tape(ys);
      walk := [mv] + walk;
    }
  }

  lemma NothingCrossedYet(s: seq<Sym>)
    ensures Reads(s, Label([]), [])
  {
  }

  lemma AcceptsInput(m: Net, s: seq<Sym>, f: int, u: seq<Arc>, xs: seq<Option<string>>)
    requires KnownInput(m, s) && m.starts == {0} && f in m.finals && Path(m.arcs, 0, u, f) && InputReads(s, u, xs)
    ensures HasInput(m, s, Tape(xs))
  {
    hide InputReads, Tape, KnownInput, Reads;
    var w := ReadInput(m, s, 0, u, f, xs);
    assert Spells(m.arcs, 0, Word(u), f);
    assert Accepts(m, Word(u));
    assert OpenAccepts(m, s, w);
  }

  // The product relates every string of the first net to every string of the
  // second, over any symbols.
  lemma CrossLanguage(t1: seq<Line>, n1: nat, t2: seq<Line>, n2: nat, k: Net, keys: seq<Triple>, s: seq<Sym>,
                      x: seq<string>, y: seq<string>)
    requires IsTable(t1, n1) && IsTable(t2, n2) && KnownInput(Meaning(t1, n1), s) && KnownInput(Meaning(t2, n2), s)
    requires StartsOf(t1) == {0} && StartsOf(t2) == {0} && IsExplored(Crossed(t1, t2), k, keys)
    ensures OpenRelates(k, s, x, y) <==> HasInput(Meaning(t1, n1), s, x) && HasInput(Meaning(t2, n2), s, y)
  {
    hide IsTable, PairMoves, KnownInput, IsExplored, InputReads, Tape, Reads, HasInput;
    var space, am, bm := Crossed(t1, t2), Meaning(t1, n1), Meaning(t2, n2);
    if OpenRelates(k, s, x, y) {
      var w :| OpenAccepts(k, s, w) && Inputs(w) == x && Outputs(w) == y;
      var ls :| Accepts(k, ls) && Reads(s, ls, w);
      ExploredLanguage(space, k, keys, ls);
      var f :| WalksTo(space, space.init, ls, f) && space.final(f);
      var walk :| Walk(space, space.init, walk, f) && Label(walk) == ls;
      var u, xs, v, ys := WalkPaths(t1, n1, t2, n2, s, space.init, walk, f, w);
      AcceptsInput(am, s, f.a, u, xs);
      AcceptsInput(bm, s, f.b, v, ys);
    }
    if HasInput(am, s, x) && HasInput(bm, s, y) {
      HasBoth(t1, n1, t2, n2, k, keys, s, x, y);
    }
  }

  lemma HasBoth(t1: seq<Line>, n1: nat, t2: seq<Line>, n2: nat, k: Net, keys: seq<Triple>, s: seq<Sym>,
                x: seq<string>, y: seq<string>)
    requires IsTable(t1, n1) && IsTable(t2, n2) && KnownInput(Meaning(t1, n1), s) && KnownInput(Meaning(t2, n2), s)
    requires StartsOf(t1) == {0} && StartsOf(t2) == {0} && IsExplored(Crossed(t1, t2), k, keys)
    requires HasInput(Meaning(t1, n1), s, x) && HasInput(Meaning(t2, n2), s, y)
    ensures OpenRelates(k, s, x, y)
  {
    TableIsClosed(t1, n1);
    TableIsClosed(t2, n2);
    hide IsTable, PairMoves, KnownInput, IsExplored, InputReads, Tape, Reads, OpenRelates;
    var space := Crossed(t1, t2);
    var a, u, xs := PathOf(Meaning(t1, n1), s, x);
    var b, v, ys := PathOf(Meaning(t2, n2), s, y);
    var walk, end, w := PathsWalk(t1, n1, t2, n2, s, space.init, u, xs, a, v, ys, b);
    assert WalksTo(space, space.init, Label(walk), end) && space.final(end);
    hide HasInput, Walk, Path, Word;
    ExploredLanguage(space, k, keys, Label(walk));
    Relations.OpenByReading(k, s, Label(walk), w);
  }

  lemma PathOf(m: Net, s: seq<Sym>, x: seq<string>) returns (f: int, u: seq<Arc>, xs: seq<Option<string>>)
    requires m.starts == {0} && HasInput(m, s, x)
    ensures f in m.finals && Path(m.arcs, 0, u, f) && InputReads(s, u, xs) && Tape(xs) == x
  {
    hide InputReads, Tape, OpenAccepts;
    var w :| OpenAccepts(m, s, w) && Inputs(w) == x;
    f, u := Relations.AcceptingPath(m, s, w);
    xs := InputRead(s, u, w);
  }

  // ---- The product ----

  lemma AreaNext(t1: seq<Line>, lo: nat, i: nat, t2: seq<Line>, lo2: nat, hi2: nat)
    requires lo <= i < |t1| && lo2 <= hi2 <= |t2|
    ensures AreaMoves(t1, lo, i + 1, t2, lo2, hi2) == AreaMoves(t1, lo, i, t2, lo2, hi2) + RowMoves(t1[i], t2, lo2, hi2)
    ensures AreaMoves(t1, lo, lo, t2, lo2, hi2) == {}
  {
  }

  lemma RowMovesNext(p: Line, t2: seq<Line>, lo: nat, j: nat)
    requires lo <= j < |t2|
    ensures RowMoves(p, t2, lo, j + 1) == RowMoves(p, t2, lo, j) + CellMoves(p, t2[j])
    ensures RowMoves(p, t2, lo, lo) == {}
  {
    hide CellMoves;
  }

  lemma AreaIsPair(t1: seq<Line>, lo: nat, hi: nat, t2: seq<Line>, lo2: nat, hi2: nat, a: int, b: int)
    requires lo <= hi <= |t1| && lo2 <= hi2 <= |t2|
    requires forall k :: 0 <= k < |t1| ==> (t1[k].state == a <==> lo <= k < hi)
    requires forall k :: 0 <= k < |t2| ==> (t2[k].state == b <==> lo2 <= k < hi2)
    ensures AreaMoves(t1, lo, hi, t2, lo2, hi2) == PairMoves(t1, t2, a, b)
  {
    hide CellMoves;
    forall mv | mv in PairMoves(t1, t2, a, b) ensures mv in AreaMoves(t1, lo, hi, t2, lo2, hi2) {
      var i, j :| 0 <= i < |t1| && 0 <= j < |t2| && t1[i].state == a && t2[j].state == b
                  && mv in CellMoves(t1[i], t2[j]);
      assert mv in RowMoves(t1[i], t2, lo2, hi2);
    }
    forall mv | mv in AreaMoves(t1, lo, hi, t2, lo2, hi2) ensures mv in PairMoves(t1, t2, a, b) {
      var i :| lo <= i < hi && mv in RowMoves(t1[i], t2, lo2, hi2);
      var j :| lo2 <= j < hi2 && mv in CellMoves(t1[i], t2[j]);
    }
  }

  // The arcs for one line of each net.
  method CrossLines(e: Explorer, ghost cur: nat, ghost base: set<Move>, p: Line, q: Line, ghost n1: nat, ghost n2: nat)
    requires LineOK(p, n1) && LineOK(q, n2) && cur < |e.table.keys| && e.Valid(cur, base)
    requires CellMoves(p, q) <= e.space.next(e.table.keys[cur])
    modifies e`stack, e`pushed, e.table, e.table.triplets, e.writer
    ensures e.Valid(cur, base + CellMoves(p, q)) && old(e.table.keys) <= e.table.keys
    ensures e.table.triplets == old(e.table.triplets) || fresh(e.table.triplets)
  {
    hide Explorer.Valid;
    ghost var sofar := base;
    if (p.target == -1 && q.target == -1) || (p.target == -1 && !p.final) || (q.target == -1 && !q.final) {
      assert base + CellMoves(p, q) == base;
      return;
    }
    if p.target != -1 && q.target != -1 {
      var symbol1, symbol2 := p.inp, q.inp;
      if symbol1 == IDENTITY && symbol2 != IDENTITY {
        symbol1 := UNKNOWN;
      }
      if symbol2 == IDENTITY && symbol1 != IDENTITY {
        symbol2 := UNKNOWN;
      }
      assert Letter(symbol1, symbol2) == Sync(p.inp, q.inp);
      e.Add(symbol1, symbol2, Triple(p.target, q.target, 0), cur, sofar);
      sofar := sofar + {Move(Sync(p.inp, q.inp), Triple(p.target, q.target, 0))};
      if p.inp == IDENTITY && q.inp == IDENTITY {
        e.Add(UNKNOWN, UNKNOWN, Triple(p.target, q.target, 0), cur, sofar);
        sofar := sofar + {Move(Letter(UNKNOWN, UNKNOWN), Triple(p.target, q.target, 0))};
      }
    }
    if p.final && q.target != -1 {
      var symbol2 := if q.inp == IDENTITY then UNKNOWN else q.inp;
      e.Add(EPSILON, symbol2, Triple(p.state, q.target, 0), cur, sofar);
      sofar := sofar + {Move(Letter(EPSILON, Opposite0(q.inp)), Triple(p.state, q.target, 0))};
    }
    if q.final && p.target != -1 {
      var symbol1 := if p.inp == IDENTITY then UNKNOWN else p.inp;
      e.Add(symbol1, EPSILON, Triple(p.target, q.state, 0), cur, sofar);
      sofar := sofar + {Move(Letter(Opposite0(p.inp), EPSILON), Triple(p.target, q.state, 0))};
    }
    assert sofar == base + CellMoves(p, q);
  }

  // One line of a against all lines of b.
  method CrossRow(e: Explorer, ghost cur: nat, ghost base: set<Move>, t1: seq<Line>, ghost n1: nat, i: nat,
                  t2: seq<Line>, n2: nat, point2: seq<StateArr>, b: int) returns (end: nat)
    requires i < |t1| && LineOK(t1[i], n1) && IsNet(t2, n2) && PointersOK(point2, t2, n2) && 0 <= b < n2
    requires e.space == Crossed(t1, t2) && cur < |e.table.keys| && e.table.keys[cur] == Triple(t1[i].state, b, 0)
             && e.Valid(cur, base)
    modifies e`stack, e`pushed, e.table, e.table.triplets, e.writer
    ensures |point2| == n2 && point2[b].first <= end <= |t2|
    ensures forall k :: 0 <= k < |t2| ==> (t2[k].state == b <==> point2[b].first <= k < end)
    ensures e.Valid(cur, base + RowMoves(t1[i], t2, point2[b].first, end)) && old(e.table.keys) <= e.table.keys
    ensures e.table.triplets == old(e.table.triplets) || fresh(e.table.triplets)
  {
    hide Explorer.Valid, CellMoves, RowMoves, IsNet, PointersOK, Grouped, PairMoves;
    NetLines(t2, n2);
    RowStart(t2, point2, n2, b);
    var first := point2[b].first;
    var j := first;
    RowMovesNext(t1[i], t2, first, first);
    assert base + {} == base;
    while j < |t2| && t2[j].state == b
      invariant OnRow(t2, first, j, b) && first < |t2| && t2[first].state == b
      invariant e.Valid(cur, base + RowMoves(t1[i], t2, first, j)) && old(e.table.keys) <= e.table.keys
      invariant e.table.triplets == old(e.table.triplets) || fresh(e.table.triplets)
    {
      CellInPair(t1, t2, i, j, t1[i].state, b);
      RowMovesNext(t1[i], t2, first, j);
      ghost var sofar := RowMoves(t1[i], t2, first, j);
      CrossLines(e, cur, base + sofar, t1[i], t2[j], n1, n2);
      assert base + sofar + CellMoves(t1[i], t2[j]) == base + (sofar + CellMoves(t1[i], t2[j]));
      j := j + 1;
    }
    RowAll(t2, n2, first, j, b);
    end := j;
  }

  // All arcs of one pair of states.
  method CrossPair(e: Explorer, ghost cur: nat, x: Triple, t1: seq<Line>, n1: nat, point1: seq<StateArr>,
                   t2: seq<Line>, n2: nat, point2: seq<StateArr>)
    requires IsNet(t1, n1) && PointersOK(point1, t1, n1) && 0 <= x.a < n1
    requires IsNet(t2, n2) && PointersOK(point2, t2, n2) && 0 <= x.b < n2 && x.c == 0
    requires e.space == Crossed(t1, t2) && cur < |e.table.keys| && e.table.keys[cur] == x && e.Valid(cur, {})
    modifies e, e.table, e.table.triplets, e.writer
    ensures e.Valid(-1, {}) && e.done == old(e.done) + {cur}
    ensures e.table.triplets == old(e.table.triplets) || fresh(e.table.triplets)
  {
    hide Explorer.Valid, CellMoves, RowMoves, AreaMoves, IsNet, PointersOK, Grouped, PairMoves;
    NetLines(t1, n1);
    RowStart(t1, point1, n1, x.a);
    RowStart(t2, point2, n2, x.b);
    var first := point1[x.a].first;
    ghost var first2 := point2[x.b].first;
    ghost var end2: nat := first2;
    var i := first;
    AreaNext(t1, first, first, t2, first2, end2);
    while i < |t1| && t1[i].state == x.a
      invariant OnRow(t1, first, i, x.a) && first < |t1| && t1[first].state == x.a && first2 <= end2 <= |t2|
      invariant i > first ==> forall k :: 0 <= k < |t2| ==> (t2[k].state == x.b <==> first2 <= k < end2)
      invariant e.Valid(cur, AreaMoves(t1, first, i, t2, first2, end2)) && old(e.table.keys) <= e.table.keys
                && e.done == old(e.done)
      invariant e.table.triplets == old(e.table.triplets) || fresh(e.table.triplets)
    {
      AreaNext(t1, first, first, t2, first2, end2);
      var end := CrossRow(e, cur, AreaMoves(t1, first, i, t2, first2, end2), t1, n1, i, t2, n2, point2, x.b);
      SameEnd(t2, first2, end2, end, i > first, x.b);
      AreaNext(t1, first, i, t2, first2, end);
      end2 := end;
      i := i + 1;
    }
    RowAll(t1, n1, first, i, x.a);
    AreaIsPair(t1, first, i, t2, first2, end2, x.a, x.b);
    e.EndState(cur);
  }

  lemma SameEnd(t2: seq<Line>, first: nat, end: nat, end': nat, known: bool, b: int)
    requires first <= end <= |t2| && first <= end' <= |t2| && first < |t2| && t2[first].state == b
    requires forall k :: 0 <= k < |t2| ==> (t2[k].state == b <==> first <= k < end')
    requires known ==> forall k :: 0 <= k < |t2| ==> (t2[k].state == b <==> first <= k < end)
    ensures known ==> end == end'
  {
    assert end < |t2| ==> (t2[end].state == b <==> first <= end < end');
    assert end' < |t2| ==> t2[end'].state != b;
  }

  lemma PairsBounded(t1: seq<Line>, n1: nat, t2: seq<Line>, n2: nat)
    requires IsTable(t1, n1) && IsTable(t2, n2) && n1 > 0 && n2 > 0
    ensures Triple(0, 0, 0) in Intersect.PairStates(n1, n2)
    ensures forall x, mv :: x in Intersect.PairStates(n1, n2) && mv in Crossed(t1, t2).next(x) ==>
                              mv.to in Intersect.PairStates(n1, n2)
  {
    forall x, mv | x in Intersect.PairStates(n1, n2) && mv in Crossed(t1, t2).next(x)
      ensures mv.to in Intersect.PairStates(n1, n2) {
      var i, j :| 0 <= i < |t1| && 0 <= j < |t2| && t1[i].state == x.a && t2[j].state == x.b
                  && mv in CellMoves(t1[i], t2[j]);
      assert LineOK(t1[i], n1) && LineOK(t2[j], n2);
    }
  }

  // The loop of fsm_cross_product, on nets with the merged alphabet s.
  method FsmCrossProduct(t1: seq<Line>, n1: nat, t2: seq<Line>, n2: nat, ghost s: seq<Sym>)
    returns (out: seq<Line>, states: nat, ghost keys: seq<Triple>)
    requires IsNet(t1, n1) && StartsOf(t1) == {0} && IsNet(t2, n2) && StartsOf(t2) == {0}
    ensures IsNet(out, states) && InOrder(out) && IsExplored(Crossed(t1, t2), Meaning(out, states), keys)
    ensures KnownInput(Meaning(t1, n1), s) && KnownInput(Meaning(t2, n2), s) ==>
              forall x, y :: OpenRelates(Meaning(out, states), s, x, y) <==>
                             HasInput(Meaning(t1, n1), s, x) && HasInput(Meaning(t2, n2), s, y)
  {
    hide IsNet, PointersOK, Explorer.Valid, IsExplored, PairMoves, HasInput, KnownInput, IsTable, OpenRelates;
    NetLines(t1, n1);
    NetLines(t2, n2);
    var point1 := InitStatePointers(t1, n1);
    var point2 := InitStatePointers(t2, n2);
    HasStates(t1, n1);
    HasStates(t2, n2);
    PairsBounded(t1, n1, t2, n2);
    var e := new Explorer(Crossed(t1, t2), Intersect.PairStates(n1, n2), Triple(0, 0, 0));
    while e.stack != []
      invariant e.Valid(-1, {}) && fresh(e.table.triplets)
      decreases e.Left()
    {
      var x := e.stack[|e.stack| - 1];
      e.SomeLeft();
      e.TopKnown();
      Flagged(point1, t1, n1, point2, t2, n2, x);
      ghost var cur;
      x, cur := e.Open(point1[x.a].final && point2[x.b].final, point1[x.a].start && point2[x.b].start);
      CrossPair(e, cur, x, t1, n1, point1, t2, n2, point2);
    }
    out, states := e.Close();
    keys := e.table.keys;
    if KnownInput(Meaning(t1, n1), s) && KnownInput(Meaning(t2, n2), s) {
      forall x, y ensures OpenRelates(Meaning(out, states), s, x, y) <==>
                          HasInput(Meaning(t1, n1), s, x) && HasInput(Meaning(t2, n2), s, y) {
        CrossLanguage(t1, n1, t2, n2, Meaning(out, states), keys, s, x, y);
      }
    }
  }

  lemma HasStates(t: seq<Line>, n: nat)
    requires IsNet(t, n)
    ensures n > 0
  {
  }

  lemma Flagged(point1: seq<StateArr>, t1: seq<Line>, n1: nat, point2: seq<StateArr>, t2: seq<Line>, n2: nat, x: Triple)
    requires PointersOK(point1, t1, n1) && PointersOK(point2, t2, n2) && x in Intersect.PairStates(n1, n2)
    requires StartsOf(t1) == {0} && StartsOf(t2) == {0}
    ensures |point1| == n1 && |point2| == n2
    ensures point1[x.a].final && point2[x.b].final <==> x.a in FinalsOf(t1) && x.b in FinalsOf(t2)
    ensures point1[x.a].start && point2[x.b].start <==> x == Triple(0, 0, 0)
  {
  }
}
