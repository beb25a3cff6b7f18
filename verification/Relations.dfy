// The relation between strings of symbols, known or not, that a composed net
// has.  It is the composition of the two relations, but for one thing: no letter
// says that an unknown symbol, by way of another symbol, becomes itself again.

module Relations {
  import opened Nets
  import opened Options
  import opened Alphabets
  import opened TripletHash
  import opened Explore
  import opened Composition

  ghost predicate Returns(s: seq<Sym>, x: Option<string>, z: Option<string>, y: Option<string>) {
    x == y && z != x && x.Some? && !Known(s, x.value)
  }

  // Two strings of pairs that meet in the middle, without a return.
  ghost predicate Passing(s: seq<Sym>, wa: seq<Pair>, wb: seq<Pair>)
    decreases |wa| + |wb|
  {
    if wa != [] && wa[0].y.None? then Passing(s, wa[1..], wb)
    else if wb != [] && wb[0].x.None? then Passing(s, wa, wb[1..])
    else wa != [] && wb != [] ==> !Returns(s, wa[0].x, wa[0].y, wb[0].y) && Passing(s, wa[1..], wb[1..])
  }

  ghost predicate Joins(am: Net, sa: seq<Sym>, bm: Net, sb: seq<Sym>, wa: seq<Pair>, wb: seq<Pair>) {
    OpenAccepts(am, sa, wa) && OpenAccepts(bm, sb, wb) && Outputs(wa) == Inputs(wb)
  }

  // Two nets with alphabets of their own lead from x to y by way of some string,
  // without the return of a symbol that is not in s.
  ghost predicate Composes(am: Net, sa: seq<Sym>, bm: Net, sb: seq<Sym>, s: seq<Sym>, x: seq<string>, y: seq<string>) {
    exists wa, wb :: Joins(am, sa, bm, sb, wa, wb) && Passing(s, wa, wb) && Inputs(wa) == x && Outputs(wb) == y
  }

  ghost predicate LettersOK(m: Net, s: seq<Sym>) {
    forall a :: a in m.arcs ==> LetterOK(s, a.letter)
  }

  // ---- One match ----

  // What two letters stand for by way of z, their match stands for.
  lemma JoinDenotes(s: seq<Sym>, p: Letter, q: Letter, x: Option<string>, z: Option<string>, y: Option<string>)
    requires SigmaOK(s) && Matched(p) && Matched(q) && z.Some? && !Returns(s, x, z, y)
    requires Denotes(s, p, x, z) && Denotes(s, q, z, y)
    ensures Denotes(s, Join(p, q), x, y)
  {
    hide SigmaOK;
    if p.outp > IDENTITY && q.inp > IDENTITY {
      NamedOnce(s, p.outp, q.inp, z.value, z.value);
    }
  }

  // What the match stands for, the letters stand for by way of some z.
  lemma JoinSplits(s: seq<Sym>, p: Letter, q: Letter, x: Option<string>, y: Option<string>) returns (z: Option<string>)
    requires LetterOK(s, p) && LetterOK(s, q) && Class(p.outp) == Class(q.inp) && q.inp != EPSILON
    requires Denotes(s, Join(p, q), x, y)
    ensures z.Some? && Denotes(s, p, x, z) && Denotes(s, q, z, y) && !Returns(s, x, z, y)
  {
    if p.outp == IDENTITY {
      z := x;
    } else if q.inp == IDENTITY {
      z := y;
    } else if p.outp == UNKNOWN {
      var other := AnotherUnknown(s, if x.Some? then x.value else "", if y.Some? then y.value else "");
      z := Some(other);
    } else {
      var k :| 0 <= k < |s| && s[k].number == p.outp;
      z := Some(s[k].symbol);
      assert Named(s, p.outp, s[k].symbol) && Known(s, s[k].symbol);
    }
  }

  // ---- Joint walks ----

  lemma WordOf(m: Net, a: Arc, path: seq<Arc>)
    requires EpsilonFree(m.arcs) && a in m.arcs
    ensures Word([a] + path) == [a.letter] + Word(path)
  {
    WordCons(a, path);
  }

  lemma ReadsSplit(s: seq<Sym>, l: Letter, ls: seq<Letter>, w: seq<Pair>)
    requires Reads(s, [l] + ls, w)
    ensures w != [] && Denotes(s, l, w[0].x, w[0].y) && Reads(s, ls, w[1..]) && w == [w[0]] + w[1..]
  {
    hide Denotes;
    assert ([l] + ls)[0] == l && ([l] + ls)[1..] == ls;
    ReadsTail(s, [l] + ls, w);
    assert Denotes(s, ([l] + ls)[0], w[0].x, w[0].y);
  }

  lemma ReadsMore(s: seq<Sym>, l: Letter, ls: seq<Letter>, xy: Pair, w: seq<Pair>)
    requires Reads(s, ls, w) && Denotes(s, l, xy.x, xy.y)
    ensures Reads(s, [l] + ls, [xy] + w)
  {
    hide Denotes;
    assert ([xy] + w)[1..] == w;
    ReadsCons(s, l, ls, [xy] + w);
  }

  // The label of a walk with one more step at the front, read as a pair.
  lemma LabelMore(s: seq<Sym>, j: Joint, js: seq<Joint>, xy: Pair, w: seq<Pair>) returns (w': seq<Pair>)
    requires Reads(s, JointLabel(js), w) && Denotes(s, JointLetter(j), xy.x, xy.y)
    ensures Reads(s, JointLabel([j] + js), w')
    ensures Inputs(w') == Symbols(xy.x) + Inputs(w) && Outputs(w') == Symbols(xy.y) + Outputs(w)
  {
    hide Denotes;
    assert ([j] + js)[1..] == js;
    if JointLetter(j) == EPS {
      EpsilonPair(s, xy);
      assert [] + JointLabel(js) == JointLabel(js);
      w' := w;
    } else {
      w' := [xy] + w;
      ReadsMore(s, JointLetter(j), JointLabel(js), xy, w);
      TapesCons(xy, w);
    }
  }

  lemma EpsilonPair(s: seq<Sym>, xy: Pair)
    requires Denotes(s, EPS, xy.x, xy.y)
    ensures xy == Pair(None, None) && Symbols(xy.x) == [] == Symbols(xy.y)
    ensures forall u: seq<string> :: [] + u == u
  {
  }

  lemma LabelSplit(s: seq<Sym>, j: Joint, js: seq<Joint>, w: seq<Pair>) returns (xy: Pair, w': seq<Pair>)
    requires Reads(s, JointLabel([j] + js), w)
    ensures Reads(s, JointLabel(js), w') && Denotes(s, JointLetter(j), xy.x, xy.y)
    ensures Inputs(w) == Symbols(xy.x) + Inputs(w') && Outputs(w) == Symbols(xy.y) + Outputs(w')
  {
    assert ([j] + js)[1..] == js;
    if JointLetter(j) == EPS {
      assert [] + JointLabel(js) == JointLabel(js);
      xy, w' := Pair(None, None), w;
      EpsilonPair(s, xy);
    } else {
      hide Denotes;
      ReadsSplit(s, JointLetter(j), JointLabel(js), w);
      xy, w' := w[0], w[1..];
      TapesCons(xy, w');
    }
  }

  // The projections of a walk with one more step.
  lemma PathsCons(j: Joint, js: seq<Joint>)
    ensures LeftPath([j] + js) == (if j.Right? then LeftPath(js) else [j.p] + LeftPath(js))
    ensures RightPath([j] + js) == (if j.Left? then RightPath(js) else [j.q] + RightPath(js))
  {
    assert ([j] + js)[1..] == js;
    assert [] + LeftPath(js) == LeftPath(js) && [] + RightPath(js) == RightPath(js);
  }

  // The pairs that two paths read are read as one along their joint walk.
  lemma {:induction false} JointReads(am: Net, bm: Net, s: seq<Sym>, x: Triple, js: seq<Joint>, y: Triple,
                                      wa: seq<Pair>, wb: seq<Pair>)
    returns (w: seq<Pair>)
    requires SigmaOK(s) && LettersOK(am, s) && LettersOK(bm, s) && EpsilonFree(am.arcs) && EpsilonFree(bm.arcs)
    requires JointWalk(am, bm, x, js, y) && Outputs(wa) == Inputs(wb) && Passing(s, wa, wb)
    requires Reads(s, Word(LeftPath(js)), wa) && Reads(s, Word(RightPath(js)), wb)
    ensures Reads(s, JointLabel(js), w) && Inputs(w) == Inputs(wa) && Outputs(w) == Outputs(wb)
    decreases js
  {
    hide SigmaOK, LetterOK, Denotes, Word, LeftPath, RightPath, JointLabel, Inputs, Outputs, Reads;
    if js == [] {
      w := [];
      NothingRead(s, wa, wb);
    } else {
      var j, rest := js[0], js[1..];
      assert js == [j] + rest;
      PathsCons(j, rest);
      match j
      case Left(p) =>
        var va := LeftStep(am, bm, s, p, LeftPath(rest), wa, wb);
        w := JointReads(am, bm, s, Target(x, j), rest, y, va, wb);
        w := LabelMore(s, j, rest, wa[0], w);
      case Right(q) =>
        ModeOne(am, bm, Target(x, j), rest, y);
        InterleaveUnique(am, bm, Target(x, j), rest, y);
        var vb := RightStep(am, bm, s, q, LeftPath(rest), RightPath(rest), wa, wb);
        w := JointReads(am, bm, s, Target(x, j), rest, y, wa, vb);
        w := LabelMore(s, j, rest, wb[0], w);
      case Match(p, q) =>
        MatchStep(am, bm, s, p, q, LeftPath(rest), RightPath(rest), wa, wb);
        var va, vb := wa[1..], wb[1..];
        w := JointReads(am, bm, s, Target(x, j), rest, y, va, vb);
        w := LabelMore(s, j, rest, Pair(wa[0].x, wb[0].y), w);
    }
  }

  lemma NothingRead(s: seq<Sym>, wa: seq<Pair>, wb: seq<Pair>)
    requires Reads(s, Word(LeftPath([])), wa) && Reads(s, Word(RightPath([])), wb)
    ensures wa == [] == wb && Reads(s, JointLabel([]), [])
  {
  }

  lemma LeftStep(am: Net, bm: Net, s: seq<Sym>, p: Arc, u: seq<Arc>, wa: seq<Pair>, wb: seq<Pair>)
    returns (va: seq<Pair>)
    requires EpsilonFree(am.arcs) && p in am.arcs && p.letter.outp == EPSILON
    requires Reads(s, Word([p] + u), wa) && Outputs(wa) == Inputs(wb) && Passing(s, wa, wb)
    ensures wa != [] && Reads(s, Word(u), va) && Outputs(va) == Inputs(wb) && Passing(s, va, wb)
    ensures Denotes(s, Letter(p.letter.inp, EPSILON), wa[0].x, wa[0].y)
    ensures Inputs(wa) == Symbols(wa[0].x) + Inputs(va) && forall t :: Symbols(wa[0].y) + t == t
  {
    hide Word;
    WordOf(am, p, u);
    ReadsSplit(s, p.letter, Word(u), wa);
    va := wa[1..];
    TapesCons(wa[0], va);
    assert p.letter == Letter(p.letter.inp, EPSILON);
    forall t ensures Symbols(wa[0].y) + t == t {
    }
  }

  lemma RightStep(am: Net, bm: Net, s: seq<Sym>, q: Arc, u: seq<Arc>, v: seq<Arc>, wa: seq<Pair>, wb: seq<Pair>)
    returns (vb: seq<Pair>)
    requires EpsilonFree(am.arcs) && EpsilonFree(bm.arcs) && q in bm.arcs && q.letter.inp == EPSILON
    requires u == [] || (u[0] in am.arcs && u[0].letter.outp != EPSILON)
    requires Reads(s, Word(u), wa) && Reads(s, Word([q] + v), wb) && Outputs(wa) == Inputs(wb) && Passing(s, wa, wb)
    ensures wb != [] && Reads(s, Word(v), vb) && Outputs(wa) == Inputs(vb) && Passing(s, wa, vb)
    ensures Denotes(s, Letter(EPSILON, q.letter.outp), wb[0].x, wb[0].y)
    ensures Outputs(wb) == Symbols(wb[0].y) + Outputs(vb) && forall t :: Symbols(wb[0].x) + t == t
  {
    WordOf(bm, q, v);
    ReadsSplit(s, q.letter, Word(v), wb);
    vb := wb[1..];
    TapesCons(wb[0], vb);
    assert q.letter == Letter(EPSILON, q.letter.outp);
    forall t ensures Symbols(wb[0].x) + t == t {
    }
    if u != [] {
      assert u == [u[0]] + u[1..];
      WordOf(am, u[0], u[1..]);
      ReadsSplit(s, u[0].letter, Word(u[1..]), wa);
    }
  }

  lemma MatchStep(am: Net, bm: Net, s: seq<Sym>, p: Arc, q: Arc, u: seq<Arc>, v: seq<Arc>, wa: seq<Pair>,
                  wb: seq<Pair>)
    requires SigmaOK(s) && LettersOK(am, s) && LettersOK(bm, s) && EpsilonFree(am.arcs) && EpsilonFree(bm.arcs)
    requires p in am.arcs && q in bm.arcs && Meets(p, q)
    requires Reads(s, Word([p] + u), wa) && Reads(s, Word([q] + v), wb) && Outputs(wa) == Inputs(wb)
             && Passing(s, wa, wb)
    ensures wa != [] && wb != [] && Reads(s, Word(u), wa[1..]) && Reads(s, Word(v), wb[1..])
    ensures Outputs(wa[1..]) == Inputs(wb[1..]) && Passing(s, wa[1..], wb[1..])
    ensures Denotes(s, Join(p.letter, q.letter), wa[0].x, wb[0].y)
    ensures Inputs(wa) == Symbols(wa[0].x) + Inputs(wa[1..]) && Outputs(wb) == Symbols(wb[0].y) + Outputs(wb[1..])
  {
    hide Word, SigmaOK;
    WordOf(am, p, u);
    WordOf(bm, q, v);
    ReadsSplit(s, p.letter, Word(u), wa);
    ReadsSplit(s, q.letter, Word(v), wb);
    var va, vb := wa[1..], wb[1..];
    TapesCons(wa[0], va);
    TapesCons(wb[0], vb);
    SomeMiddle(wa[0].y, Outputs(va), wb[0].x, Inputs(vb));
    JoinDenotes(s, p.letter, q.letter, wa[0].x, wa[0].y, wb[0].y);
  }

  lemma SomeMiddle(z: Option<string>, a: seq<string>, z': Option<string>, b: seq<string>)
    requires z.Some? && z'.Some? && Symbols(z) + a == Symbols(z') + b
    ensures z == z' && a == b
  {
    assert (Symbols(z) + a)[0] == (Symbols(z') + b)[0];
    assert (Symbols(z) + a)[1..] == a && (Symbols(z') + b)[1..] == b;
  }

  // A string of pairs along a joint walk is read by the two paths.
  lemma {:induction false} JointSplits(am: Net, bm: Net, s: seq<Sym>, x: Triple, js: seq<Joint>, y: Triple,
                                       w: seq<Pair>) returns (wa: seq<Pair>, wb: seq<Pair>)
    requires LettersOK(am, s) && LettersOK(bm, s) && EpsilonFree(am.arcs) && EpsilonFree(bm.arcs)
    requires JointWalk(am, bm, x, js, y) && Reads(s, JointLabel(js), w)
    ensures Reads(s, Word(LeftPath(js)), wa) && Reads(s, Word(RightPath(js)), wb)
    ensures Outputs(wa) == Inputs(wb) && Passing(s, wa, wb) && Inputs(wa) == Inputs(w) && Outputs(wb) == Outputs(w)
    decreases js
  {
    hide LetterOK, Denotes, Word, LeftPath, RightPath, JointLabel, Inputs, Outputs, Reads, Returns, Symbols;
    if js == [] {
      wa, wb := [], [];
      NothingSplit(s, w);
    } else {
      var j, rest := js[0], js[1..];
      assert js == [j] + rest;
      PathsCons(j, rest);
      var xy, w' := LabelSplit(s, j, rest, w);
      wa, wb := JointSplits(am, bm, s, Target(x, j), rest, y, w');
      match j
      case Left(p) =>
        EmptyTape(s, p.letter.inp, xy);
        WordOf(am, p, LeftPath(rest));
        ReadsMore(s, p.letter, Word(LeftPath(rest)), xy, wa);
        TapesCons(xy, wa);
        assert ([xy] + wa)[1..] == wa;
        wa := [xy] + wa;
      case Right(q) =>
        ModeOne(am, bm, Target(x, j), rest, y);
        EmptyTape(s, q.letter.outp, xy);
        WordOf(bm, q, RightPath(rest));
        ReadsMore(s, q.letter, Word(RightPath(rest)), xy, wb);
        TapesCons(xy, wb);
        HeadWritten(am, s, Target(x, j), bm, rest, y, wa);
        assert ([xy] + wb)[1..] == wb;
        wb := [xy] + wb;
      case Match(p, q) =>
        var z := JoinSplits(s, p.letter, q.letter, xy.x, xy.y);
        WordOf(am, p, LeftPath(rest));
        WordOf(bm, q, RightPath(rest));
        ReadsMore(s, p.letter, Word(LeftPath(rest)), Pair(xy.x, z), wa);
        ReadsMore(s, q.letter, Word(RightPath(rest)), Pair(z, xy.y), wb);
        TapesCons(Pair(xy.x, z), wa);
        TapesCons(Pair(z, xy.y), wb);
        assert ([Pair(xy.x, z)] + wa)[1..] == wa && ([Pair(z, xy.y)] + wb)[1..] == wb;
        wa, wb := [Pair(xy.x, z)] + wa, [Pair(z, xy.y)] + wb;
    }
  }

  lemma NothingSplit(s: seq<Sym>, w: seq<Pair>)
    requires Reads(s, JointLabel([]), w)
    ensures w == [] && Reads(s, Word(LeftPath([])), []) && Reads(s, Word(RightPath([])), [])
    ensures Inputs([]) == [] == Outputs([])
  {
  }

  // 0 on one side is no symbol there.
  lemma EmptyTape(s: seq<Sym>, n: int, xy: Pair)
    ensures Denotes(s, Letter(n, EPSILON), xy.x, xy.y) ==> xy.y.None? && forall t :: Symbols(xy.y) + t == t
    ensures Denotes(s, Letter(EPSILON, n), xy.x, xy.y) ==> xy.x.None? && forall t :: Symbols(xy.x) + t == t
  {
  }

  // In mode 1 the first pair of the first net has a symbol in the middle.
  lemma HeadWritten(am: Net, s: seq<Sym>, x: Triple, bm: Net, js: seq<Joint>, y: Triple, wa: seq<Pair>)
    requires EpsilonFree(am.arcs) && JointWalk(am, bm, x, js, y) && Reads(s, Word(LeftPath(js)), wa)
    requires LeftPath(js) == [] || LeftPath(js)[0].letter.outp != EPSILON
    ensures wa != [] ==> wa[0].y.Some?
  {
    var u := LeftPath(js);
    InterleaveUnique(am, bm, x, js, y);
    if u != [] {
      assert u == [u[0]] + u[1..];
      WordOf(am, u[0], u[1..]);
      ReadsSplit(s, u[0].letter, Word(u[1..]), wa);
    }
  }

  // ---- The composition ----

  // The classes of the symbols on a tape.
  ghost function ClassOf(s: seq<Sym>, x: string): int {
    if k :| 0 <= k < |s| && s[k].number > IDENTITY && s[k].symbol == x then s[k].number else UNKNOWN
  }

  ghost function Classes(s: seq<Sym>, tape: seq<string>): seq<int> {
    seq(|tape|, i requires 0 <= i < |tape| => ClassOf(s, tape[i]))
  }

  lemma ClassStands(s: seq<Sym>, n: int, x: Option<string>)
    requires SigmaOK(s) && Stands(s, n, x)
    ensures Classes(s, Symbols(x)) == if n == EPSILON then [] else [Class(n)]
  {
    hide SigmaOK;
    if n > IDENTITY {
      var k :| 0 <= k < |s| && s[k].number > IDENTITY && s[k].symbol == x.value;
      assert Named(s, ClassOf(s, x.value), x.value);
      NamedOnce(s, n, ClassOf(s, x.value), x.value, x.value);
    }
  }

  lemma ClassesConcat(s: seq<Sym>, a: seq<string>, b: seq<string>)
    ensures Classes(s, a + b) == Classes(s, a) + Classes(s, b) && Classes(s, []) == []
  {
  }

  lemma {:induction false} TapeClasses(m: Net, s: seq<Sym>, p: int, u: seq<Arc>, a: int, w: seq<Pair>)
    requires SigmaOK(s) && EpsilonFree(m.arcs) && Path(m.arcs, p, u, a) && Reads(s, Word(u), w)
    ensures Lower(u) == Classes(s, Outputs(w)) && Upper(u) == Classes(s, Inputs(w))
    decreases u
  {
    hide SigmaOK, Classes, Stands, Class;
    if u == [] {
      ClassesConcat(s, [], []);
    } else {
      assert u == [u[0]] + u[1..];
      WordOf(m, u[0], u[1..]);
      ReadsSplit(s, u[0].letter, Word(u[1..]), w);
      TapeClasses(m, s, u[0].dst, u[1..], a, w[1..]);
      TapesCons(w[0], w[1..]);
      ClassStands(s, u[0].letter.inp, w[0].x);
      ClassStands(s, u[0].letter.outp, w[0].y);
      ClassesConcat(s, Symbols(w[0].x), Inputs(w[1..]));
      ClassesConcat(s, Symbols(w[0].y), Outputs(w[1..]));
    }
  }

  // Nets that the composition can be told of: merged alphabets, no 0:0.
  ghost predicate Composable(am: Net, bm: Net, s: seq<Sym>) {
    && SigmaOK(s) && LettersOK(am, s) && LettersOK(bm, s) && EpsilonFree(am.arcs) && EpsilonFree(bm.arcs)
    && am.starts == {0} && bm.starts == {0}
  }

  lemma ComposedSplits(am: Net, bm: Net, k: Net, keys: seq<Triple>, s: seq<Sym>, x: seq<string>, y: seq<string>)
    requires Composable(am, bm, s) && IsExplored(Composed(am, bm), k, keys) && OpenRelates(k, s, x, y)
    ensures Composes(am, s, bm, s, s, x, y)
  {
    hide Reads, LettersOK, SigmaOK, JointLabel, Passing, IsExplored, JointWalk;
    var space := Composed(am, bm);
    var w :| OpenAccepts(k, s, w) && Inputs(w) == x && Outputs(w) == y;
    var ls :| Accepts(k, ls) && Reads(s, ls, w);
    ExploredLanguage(space, k, keys, ls);
    var f :| WalksTo(space, space.init, ls, f) && space.final(f);
    var walk :| Walk(space, space.init, walk, f) && Label(walk) == ls;
    var js := WalkIsJoint(am, bm, space.init, walk, f);
    var u, v := LeftPath(js), RightPath(js);
    InterleaveUnique(am, bm, space.init, js, f);
    var wa, wb := JointSplits(am, bm, s, space.init, js, f, w);
    assert Spells(am.arcs, 0, Word(u), f.a) && Accepts(am, Word(u));
    assert Spells(bm.arcs, 0, Word(v), f.b) && Accepts(bm, Word(v));
    assert Joins(am, s, bm, s, wa, wb);
  }

  lemma AcceptingPath(m: Net, s: seq<Sym>, w: seq<Pair>) returns (f: int, u: seq<Arc>)
    requires m.starts == {0} && OpenAccepts(m, s, w)
    ensures f in m.finals && Path(m.arcs, 0, u, f) && Reads(s, Word(u), w)
  {
    hide Reads;
    var ls :| Accepts(m, ls) && Reads(s, ls, w);
    f :| f in m.finals && Spells(m.arcs, 0, ls, f);
    u :| Path(m.arcs, 0, u, f) && Word(u) == ls;
  }

  lemma JoinedComposed(am: Net, bm: Net, k: Net, keys: seq<Triple>, s: seq<Sym>, wa: seq<Pair>, wb: seq<Pair>)
    requires Composable(am, bm, s) && IsExplored(Composed(am, bm), k, keys)
    requires Joins(am, s, bm, s, wa, wb) && Passing(s, wa, wb)
    ensures OpenRelates(k, s, Inputs(wa), Outputs(wb))
  {
    hide Reads, LettersOK, SigmaOK, JointLabel, Passing, IsExplored, JointWalk, OpenAccepts, Word, Path, Walk, Lower,
         Upper, Interleave, LeftPath, RightPath;
    var space := Composed(am, bm);
    var a, u := AcceptingPath(am, s, wa);
    var b, v := AcceptingPath(bm, s, wb);
    TapeClasses(am, s, 0, u, a, wa);
    TapeClasses(bm, s, 0, v, b, wb);
    var y := InterleaveExists(am, bm, space.init, u, a, v, b);
    var js := Interleave(u, v);
    var w := JointReads(am, bm, s, space.init, js, y, wa, wb);
    var walk := JointIsWalk(am, bm, space.init, js, y);
    assert WalksTo(space, space.init, Label(walk), y) && space.final(y);
    ExploredLanguage(space, k, keys, Label(walk));
    OpenByReading(k, s, JointLabel(js), w);
  }

  lemma OpenByReading(k: Net, s: seq<Sym>, ls: seq<Letter>, w: seq<Pair>)
    requires Accepts(k, ls) && Reads(s, ls, w)
    ensures OpenRelates(k, s, Inputs(w), Outputs(w))
  {
    assert OpenAccepts(k, s, w);
  }

  // What the composed net relates, exactly.
  lemma CompositionRelation(am: Net, bm: Net, k: Net, keys: seq<Triple>, s: seq<Sym>, x: seq<string>, y: seq<string>)
    requires Composable(am, bm, s) && IsExplored(Composed(am, bm), k, keys)
    ensures OpenRelates(k, s, x, y) <==> Composes(am, s, bm, s, s, x, y)
  {
    hide OpenRelates, Joins, Passing, IsExplored, Composable;
    if OpenRelates(k, s, x, y) {
      ComposedSplits(am, bm, k, keys, s, x, y);
    }
    if wa, wb :| Joins(am, s, bm, s, wa, wb) && Passing(s, wa, wb) && Inputs(wa) == x && Outputs(wb) == y {
      JoinedComposed(am, bm, k, keys, s, wa, wb);
    }
  }

  // No ? on the outer tape of the first net, or none on that of the second.
  ghost predicate OuterKnown(am: Net, bm: Net) {
    || (forall p :: p in am.arcs ==> p.letter.inp != UNKNOWN)
    || (forall q :: q in bm.arcs ==> q.letter.outp != UNKNOWN)
  }

  // Then this is the composition of the two relations.
  lemma PlainComposition(am: Net, bm: Net, s: seq<Sym>, x: seq<string>, y: seq<string>)
    requires Composable(am, bm, s) && OuterKnown(am, bm)
    ensures Composes(am, s, bm, s, s, x, y) <==> exists z :: OpenRelates(am, s, x, z) && OpenRelates(bm, s, z, y)
  {
    hide OpenAccepts, Passing, Composable;
    if wa, wb :| Joins(am, s, bm, s, wa, wb) && Passing(s, wa, wb) && Inputs(wa) == x && Outputs(wb) == y {
      assert OpenRelates(am, s, x, Outputs(wa)) && OpenRelates(bm, s, Outputs(wa), y);
    }
    if z :| OpenRelates(am, s, x, z) && OpenRelates(bm, s, z, y) {
      var wa :| OpenAccepts(am, s, wa) && Inputs(wa) == x && Outputs(wa) == z;
      var wb :| OpenAccepts(bm, s, wb) && Inputs(wb) == z && Outputs(wb) == y;
      NoReturn(am, bm, s, wa, wb);
      assert Joins(am, s, bm, s, wa, wb);
    }
  }

  lemma NoReturn(am: Net, bm: Net, s: seq<Sym>, wa: seq<Pair>, wb: seq<Pair>)
    requires Composable(am, bm, s) && OuterKnown(am, bm) && OpenAccepts(am, s, wa) && OpenAccepts(bm, s, wb)
    requires Outputs(wa) == Inputs(wb)
    ensures Passing(s, wa, wb)
  {
    hide Reads, SigmaOK, LetterOK, Word, Path, Passing;
    if forall p :: p in am.arcs ==> p.letter.inp != UNKNOWN {
      var a, u := AcceptingPath(am, s, wa);
      FirstStays(am, s, 0, u, a, wa);
      StaysPass(s, wa, wb);
    } else {
      var b, v := AcceptingPath(bm, s, wb);
      SecondStays(bm, s, 0, v, b, wb);
      StaysPass(s, wa, wb);
    }
  }

  // An unknown symbol on the first tape is itself on the second.
  ghost predicate Stays(s: seq<Sym>, w: seq<Pair>) {
    forall i :: 0 <= i < |w| && w[i].x.Some? && !Known(s, w[i].x.value) ==> w[i].y == w[i].x
  }

  // And the other way about.
  ghost predicate Came(s: seq<Sym>, w: seq<Pair>) {
    forall i :: 0 <= i < |w| && w[i].y.Some? && !Known(s, w[i].y.value) ==> w[i].x == w[i].y
  }

  lemma {:induction false} FirstStays(m: Net, s: seq<Sym>, p: int, u: seq<Arc>, f: int, w: seq<Pair>)
    requires LettersOK(m, s) && EpsilonFree(m.arcs) && forall a :: a in m.arcs ==> a.letter.inp != UNKNOWN
    requires Path(m.arcs, p, u, f) && Reads(s, Word(u), w)
    ensures Stays(s, w)
    decreases u
  {
    if u != [] {
      assert u == [u[0]] + u[1..];
      WordOf(m, u[0], u[1..]);
      ReadsSplit(s, u[0].letter, Word(u[1..]), w);
      FirstStays(m, s, u[0].dst, u[1..], f, w[1..]);
      LetterStays(s, u[0].letter, w[0]);
      forall i | 0 <= i < |w| && w[i].x.Some? && !Known(s, w[i].x.value) ensures w[i].y == w[i].x {
        assert i > 0 ==> w[i] == w[1..][i - 1];
      }
    }
  }

  lemma {:induction false} SecondStays(m: Net, s: seq<Sym>, p: int, u: seq<Arc>, f: int, w: seq<Pair>)
    requires LettersOK(m, s) && EpsilonFree(m.arcs) && forall a :: a in m.arcs ==> a.letter.outp != UNKNOWN
    requires Path(m.arcs, p, u, f) && Reads(s, Word(u), w)
    ensures Came(s, w)
    decreases u
  {
    if u != [] {
      assert u == [u[0]] + u[1..];
      WordOf(m, u[0], u[1..]);
      ReadsSplit(s, u[0].letter, Word(u[1..]), w);
      SecondStays(m, s, u[0].dst, u[1..], f, w[1..]);
      LetterStays(s, u[0].letter, w[0]);
      forall i | 0 <= i < |w| && w[i].y.Some? && !Known(s, w[i].y.value) ensures w[i].x == w[i].y {
        assert i > 0 ==> w[i] == w[1..][i - 1];
      }
    }
  }

  // Only @ and ? stand for unknown symbols, and @ for the same on both sides.
  lemma LetterStays(s: seq<Sym>, l: Letter, xy: Pair)
    requires Matched(l) && Denotes(s, l, xy.x, xy.y)
    ensures l.inp != UNKNOWN && xy.x.Some? && !Known(s, xy.x.value) ==> xy.y == xy.x
    ensures l.outp != UNKNOWN && xy.y.Some? && !Known(s, xy.y.value) ==> xy.x == xy.y
  {
  }

  lemma {:induction false} StaysPass(s: seq<Sym>, wa: seq<Pair>, wb: seq<Pair>)
    requires Outputs(wa) == Inputs(wb) && (Stays(s, wa) || Came(s, wb))
    ensures Passing(s, wa, wb)
    decreases |wa| + |wb|
  {
    if wa != [] && wa[0].y.None? {
      assert wa == [wa[0]] + wa[1..];
      TapesCons(wa[0], wa[1..]);
      assert Symbols(wa[0].y) + Outputs(wa[1..]) == Outputs(wa[1..]);
      StaysPass(s, wa[1..], wb);
    } else if wb != [] && wb[0].x.None? {
      assert wb == [wb[0]] + wb[1..];
      TapesCons(wb[0], wb[1..]);
      assert Symbols(wb[0].x) + Inputs(wb[1..]) == Inputs(wb[1..]);
      StaysPass(s, wa, wb[1..]);
    } else if wa != [] && wb != [] {
      SomeMiddle(wa[0].y, Outputs(wa[1..]), wb[0].x, Inputs(wb[1..]));
      StaysPass(s, wa[1..], wb[1..]);
    }
  }

  // ---- A pair that is lost ----

  // ?:c and then c:? relates every unknown symbol to the others, but not to itself.
  lemma ReturnLost(s: seq<Sym>, c: int, name: string, x: string)
    requires SigmaOK(s) && Named(s, c, name) && !Known(s, x)
    ensures var am, bm := Net(2, {Arc(0, Letter(UNKNOWN, c), 1)}, {0}, {1}),
                Net(2, {Arc(0, Letter(c, UNKNOWN), 1)}, {0}, {1});
            && OpenRelates(am, s, [x], [name]) && OpenRelates(bm, s, [name], [x])
            && !Composes(am, s, bm, s, s, [x], [x])
  {
    var p, q := Arc(0, Letter(UNKNOWN, c), 1), Arc(0, Letter(c, UNKNOWN), 1);
    var am, bm := Net(2, {p}, {0}, {1}), Net(2, {q}, {0}, {1});
    OneArc(am, p);
    OneArc(bm, q);
    hide SigmaOK, Accepts, Inputs, Outputs, Passing;
    OneRelated(am, p.letter, s, Pair(Some(x), Some(name)));
    OneRelated(bm, q.letter, s, Pair(Some(name), Some(x)));
    forall va: seq<Pair>, vb: seq<Pair> | Joins(am, s, bm, s, va, vb) && Inputs(va) == [x] && Outputs(vb) == [x]
      ensures !Passing(s, va, vb) {
      assert Reads(s, [p.letter], va) && Reads(s, [q.letter], vb);
      assert va == [va[0]] && vb == [vb[0]];
      OnePair(va[0]);
      OnePair(vb[0]);
      Returning(s, c, x, va[0], vb[0]);
    }
  }

  lemma OnePair(xy: Pair)
    ensures Inputs([xy]) == Symbols(xy.x) && Outputs([xy]) == Symbols(xy.y)
  {
    assert [xy][1..] == [];
  }

  lemma OneRelated(m: Net, l: Letter, s: seq<Sym>, xy: Pair)
    requires Accepts(m, [l]) && Denotes(s, l, xy.x, xy.y)
    ensures OpenRelates(m, s, Symbols(xy.x), Symbols(xy.y))
  {
    hide Accepts, Denotes;
    OnePair(xy);
    assert Reads(s, [l], [xy]);
    assert OpenAccepts(m, s, [xy]);
  }

  lemma Returning(s: seq<Sym>, c: int, x: string, xy: Pair, yx: Pair)
    requires Denotes(s, Letter(UNKNOWN, c), xy.x, xy.y) && Denotes(s, Letter(c, UNKNOWN), yx.x, yx.y) && c > IDENTITY
    requires !Known(s, x) && Symbols(xy.x) == [x] == Symbols(yx.y)
    ensures !Passing(s, [xy], [yx])
  {
    OneSymbol(xy.x, x);
    OneSymbol(yx.y, x);
    assert Named(s, c, xy.y.value) && Named(s, c, yx.x.value);
    assert Known(s, xy.y.value);
  }

  lemma OneSymbol(o: Option<string>, x: string)
    requires Symbols(o) == [x]
    ensures o == Some(x)
  {
    assert o.Some? && Symbols(o)[0] == o.value;
  }

  lemma OneArc(m: Net, a: Arc)
    requires m == Net(2, {a}, {0}, {1}) && a.src == 0 && a.dst == 1 && a.letter != EPS
    ensures forall w :: Accepts(m, w) <==> w == [a.letter]
  {
    assert [a] == [a] + [];
    WordCons(a, []);
    assert Path(m.arcs, 0, [a], 1);
    assert Spells(m.arcs, 0, [a.letter], 1);
    forall w | Accepts(m, w) ensures w == [a.letter] {
      var path :| Path(m.arcs, 0, path, 1) && Word(path) == w;
      OnlyPath(a, path);
    }
  }

  lemma OnlyPath(a: Arc, path: seq<Arc>)
    requires Path({a}, 0, path, 1) && a.src == 0 && a.dst == 1
    ensures path == [a]
  {
    assert path[0] in {a};
    assert path[1..] == [];
  }
}
