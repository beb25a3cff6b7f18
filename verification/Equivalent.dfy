// fsm_equivalent (constructions.c): both nets are traversed in parallel until
// a pair of states disagrees.

module Equivalent {
  import opened Nets
  import opened Counting
  import opened TripletHash
  import opened Pointers
  import Intersect

  // Some word leads the two nets to x.
  ghost predicate Together(am: Net, bm: Net, x: Triple) {
    exists w :: Run(am.arcs, 0, w) == x.a && Run(bm.arcs, 0, w) == x.b
  }

  // Every arc is matched at b, and leads to a known pair.
  ghost predicate Matched(arcs: set<Arc>, bm: Net, b: int, keys: seq<Triple>) {
    forall p :: p in arcs ==> Next(bm.arcs, b, p.letter) != -1 && Triple(p.dst, Next(bm.arcs, b, p.letter), 0) in keys
  }

  ghost predicate Agree(am: Net, bm: Net, x: Triple, keys: seq<Triple>) {
    && (x.a in am.finals <==> x.b in bm.finals)
    && Matched(ArcsAt(am.arcs, x.a), bm, x.b, keys)
    && (forall q :: q in ArcsAt(bm.arcs, x.b) ==> Next(am.arcs, x.a, q.letter) != -1)
  }

  // ---- A set of agreeing pairs is a bisimulation ----

  lemma {:induction false} AgreeingRuns(am: Net, bm: Net, keys: seq<Triple>, x: Triple, w: seq<Letter>)
    requires Deterministic(am) && Deterministic(bm) && x in keys && forall y :: y in keys ==> Agree(am, bm, y, keys)
    ensures AcceptsFrom(am, x.a, w) <==> AcceptsFrom(bm, x.b, w)
    ensures x.a != -1 && x.b != -1 ==> (Run(am.arcs, x.a, w) == -1 <==> Run(bm.arcs, x.b, w) == -1)
    decreases w
  {
    if w != [] {
      var p, q := Next(am.arcs, x.a, w[0]), Next(bm.arcs, x.b, w[0]);
      if p != -1 {
        assert Arc(x.a, w[0], p) in ArcsAt(am.arcs, x.a);
        AgreeingRuns(am, bm, keys, Triple(p, q, 0), w[1..]);
      }
    }
  }

  // The nets accept the same words and get stuck on the same words.
  ghost predicate SameRuns(am: Net, bm: Net) {
    forall w :: SameRun(am, bm, w)
  }

  ghost predicate SameRun(am: Net, bm: Net, w: seq<Letter>) {
    (AcceptsFrom(am, 0, w) <==> AcceptsFrom(bm, 0, w)) && (Run(am.arcs, 0, w) == -1 <==> Run(bm.arcs, 0, w) == -1)
  }

  lemma AllAgree(am: Net, bm: Net, keys: seq<Triple>)
    requires Deterministic(am) && Deterministic(bm) && Triple(0, 0, 0) in keys
             && forall y :: y in keys ==> Agree(am, bm, y, keys)
    ensures SameRuns(am, bm)
  {
    forall w ensures SameRun(am, bm, w) {
      AgreeingRuns(am, bm, keys, Triple(0, 0, 0), w);
    }
  }

  lemma SameRunsAccept(am: Net, bm: Net)
    requires Deterministic(am) && Deterministic(bm) && SameRuns(am, bm)
    ensures SameLanguage(am, bm)
  {
    forall w ensures Accepts(am, w) <==> Accepts(bm, w) {
      assert SameRun(am, bm, w);
      AcceptsByRun(am, w);
      AcceptsByRun(bm, w);
    }
  }

  // In trim nets a word that leads somewhere can be completed.
  lemma Completed(m: Net, w: seq<Letter>) returns (u: seq<Letter>)
    requires Deterministic(m) && Trim(m) && Run(m.arcs, 0, w) != -1
    ensures Accepts(m, w + u)
  {
    assert 0 in m.starts;
    RunStays(m, 0, w);
    var p := Run(m.arcs, 0, w);
    assert Productive(m, p);
    var f :| f in m.finals && Reaches(m.arcs, p, f);
    var path :| Path(m.arcs, p, path, f);
    PathIsRun(m, p, path, f);
    u := Word(path);
    RunConcat(m.arcs, 0, w, u);
    AcceptsByRun(m, w + u);
  }

  lemma LeadsOn(m: Net, w: seq<Letter>, u: seq<Letter>)
    requires Deterministic(m) && Accepts(m, w + u)
    ensures Run(m.arcs, 0, w) != -1
  {
    AcceptsByRun(m, w + u);
    RunConcat(m.arcs, 0, w, u);
    DeadRun(m, u);
  }

  // For trim nets the exact result is language equality.
  lemma TrimRuns(am: Net, bm: Net)
    requires Deterministic(am) && Deterministic(bm) && Trim(am) && Trim(bm)
    ensures SameRuns(am, bm) <==> SameLanguage(am, bm)
  {
    if SameRuns(am, bm) {
      SameRunsAccept(am, bm);
    }
    if SameLanguage(am, bm) {
      forall w ensures SameRun(am, bm, w) {
        AcceptsByRun(am, w);
        AcceptsByRun(bm, w);
        if Run(am.arcs, 0, w) != -1 {
          var u := Completed(am, w);
          LeadsOn(bm, w, u);
        }
        if Run(bm.arcs, 0, w) != -1 {
          var u := Completed(bm, w);
          LeadsOn(am, w, u);
        }
      }
    }
  }

  // ---- A disagreeing pair has a distinguishing word ----

  lemma FinalsDiffer(am: Net, bm: Net, x: Triple)
    requires Together(am, bm, x) && (x.a in am.finals) != (x.b in bm.finals)
    ensures !SameRuns(am, bm)
  {
    var w :| Run(am.arcs, 0, w) == x.a && Run(bm.arcs, 0, w) == x.b;
    assert !SameRun(am, bm, w);
  }

  // The first net can follow l, the second cannot.
  lemma ArcMissing(am: Net, bm: Net, x: Triple, l: Letter)
    requires Deterministic(am) && Deterministic(bm) && Together(am, bm, x)
    requires Next(am.arcs, x.a, l) != -1 && Next(bm.arcs, x.b, l) == -1
    ensures !SameRuns(am, bm) && !SameRuns(bm, am)
  {
    var w :| Run(am.arcs, 0, w) == x.a && Run(bm.arcs, 0, w) == x.b;
    assert [l][1..] == [];
    RunConcat(am.arcs, 0, w, [l]);
    RunConcat(bm.arcs, 0, w, [l]);
    assert Run(am.arcs, x.a, [l]) == Next(am.arcs, x.a, l);
    assert Run(bm.arcs, x.b, [l]) == -1;
    assert !SameRun(am, bm, w + [l]) && !SameRun(bm, am, w + [l]);
  }

  lemma TogetherNext(am: Net, bm: Net, x: Triple, l: Letter)
    requires Deterministic(am) && Deterministic(bm) && Together(am, bm, x)
    requires Next(am.arcs, x.a, l) != -1 && Next(bm.arcs, x.b, l) != -1
    ensures Together(am, bm, Triple(Next(am.arcs, x.a, l), Next(bm.arcs, x.b, l), 0))
  {
    var w :| Run(am.arcs, 0, w) == x.a && Run(bm.arcs, 0, w) == x.b;
    assert [l][1..] == [];
    RunConcat(am.arcs, 0, w, [l]);
    RunConcat(bm.arcs, 0, w, [l]);
    assert Run(am.arcs, x.a, [l]) == Next(am.arcs, x.a, l) && Run(bm.arcs, x.b, [l]) == Next(bm.arcs, x.b, l);
    assert Run(am.arcs, 0, w + [l]) == Next(am.arcs, x.a, l);
  }

  // ---- The traversal ----

  // Pairs found are reached by a common word; those not on the stack agree.
  ghost predicate Traversed(am: Net, bm: Net, keys: seq<Triple>, stack: seq<Triple>, but: set<Triple>) {
    && Triple(0, 0, 0) in keys && NoDup(keys) && NoDup(stack)
    && (forall x :: x in keys ==> 0 <= x.a < am.states && 0 <= x.b < bm.states && x.c == 0 && Together(am, bm, x))
    && (forall x :: x in stack ==> x in keys && x !in but)
    && (forall x :: x in keys && x !in stack && x !in but ==> Agree(am, bm, x, keys))
  }

  lemma StartTraversal(am: Net, bm: Net)
    requires Deterministic(am) && Deterministic(bm)
    ensures Traversed(am, bm, [Triple(0, 0, 0)], [Triple(0, 0, 0)], {})
  {
    assert 0 in am.starts && 0 in bm.starts;
    assert Run(am.arcs, 0, []) == 0 && Run(bm.arcs, 0, []) == 0;
  }

  lemma PopPair(am: Net, bm: Net, keys: seq<Triple>, stack: seq<Triple>)
    requires Traversed(am, bm, keys, stack, {}) && stack != []
    ensures Traversed(am, bm, keys, stack[..|stack| - 1], {stack[|stack| - 1]})
    ensures stack[|stack| - 1] in keys
  {
    var rest, x := stack[..|stack| - 1], stack[|stack| - 1];
    assert stack == rest + [x] && x !in rest && x in stack;
  }

  lemma MatchedGrows(arcs: set<Arc>, bm: Net, b: int, keys: seq<Triple>, keys': seq<Triple>)
    requires Matched(arcs, bm, b, keys) && keys <= keys'
    ensures Matched(arcs, bm, b, keys')
  {
    forall x | x in keys ensures x in keys' {
      var i :| 0 <= i < |keys| && keys[i] == x;
      assert keys'[i] == x;
    }
  }

  lemma PushPair(am: Net, bm: Net, keys: seq<Triple>, stack: seq<Triple>, but: set<Triple>, x: Triple)
    requires Traversed(am, bm, keys, stack, but) && x !in keys && (forall y :: y in but ==> y in keys)
    requires 0 <= x.a < am.states && 0 <= x.b < bm.states && x.c == 0 && Together(am, bm, x)
    ensures Traversed(am, bm, keys + [x], stack + [x], but)
  {
    hide Together, Matched;
    var keys' := keys + [x];
    assert x !in stack && x !in but;
    forall y | y in keys' && y !in stack + [x] && y !in but ensures Agree(am, bm, y, keys') {
      assert y in keys;
      assert x in stack + [x];
      assert forall z :: z in stack ==> z in stack + [x];
      MatchedGrows(ArcsAt(am.arcs, y.a), bm, y.b, keys, keys');
    }
  }

  lemma PairDone(am: Net, bm: Net, keys: seq<Triple>, stack: seq<Triple>, x: Triple)
    requires Traversed(am, bm, keys, stack, {x}) && Agree(am, bm, x, keys)
    ensures Traversed(am, bm, keys, stack, {})
  {
    hide Together, Agree;
  }

  // Every arc of a has a match at b; the target pairs are pushed.
  method MatchForward(th: TripleTable, stack0: seq<Triple>, x: Triple, t1: seq<Line>, n1: nat, point1: seq<StateArr>,
                      t2: seq<Line>, n2: nat, point2: seq<StateArr>) returns (stack: seq<Triple>, ok: bool)
    requires IsNet(t1, n1) && PointersOK(point1, t1, n1) && IsNet(t2, n2) && PointersOK(point2, t2, n2)
    requires Deterministic(Meaning(t1, n1)) && Deterministic(Meaning(t2, n2))
    requires th.Valid() && Traversed(Meaning(t1, n1), Meaning(t2, n2), th.keys, stack0, {x}) && x in th.keys
    modifies th, th.triplets
    ensures th.Valid() && (th.triplets == old(th.triplets) || fresh(th.triplets)) && old(th.keys) <= th.keys
    ensures Traversed(Meaning(t1, n1), Meaning(t2, n2), th.keys, stack, {x})
    ensures |stack| - |stack0| == |th.keys| - old(|th.keys|)
    ensures ok ==> Matched(ArcsAt(ArcsOf(t1), x.a), Meaning(t2, n2), x.b, th.keys)
    ensures !ok ==> exists l :: Next(ArcsOf(t1), x.a, l) != -1 && Next(ArcsOf(t2), x.b, l) == -1
  {
    hide IsNet, PointersOK, ArcsOf, Deterministic, Traversed, Matched, LoneFlags, Grouped, ArcsIn, ArcsAt,
         TripleTable.Valid;
    ghost var am, bm := Meaning(t1, n1), Meaning(t2, n2);
    stack, ok := stack0, true;
    NetLines(t1, n1);
    PairInRange(am, bm, th.keys, stack, {x}, x);
    RowStart(t1, point1, n1, x.a);
    NothingMatched(bm, x.b, th.keys);
    var first := point1[x.a].first;
    var i := first;
    while i < |t1| && t1[i].state == x.a
      invariant OnRow(t1, first, i, x.a) && first < |t1| && t1[first].state == x.a
      invariant th.Valid() && old(th.keys) <= th.keys && (th.triplets == old(th.triplets) || fresh(th.triplets))
      invariant |stack| - |stack0| == |th.keys| - old(|th.keys|)
      invariant Traversed(am, bm, th.keys, stack, {x}) && Matched(ArcsIn(t1, first, i), bm, x.b, th.keys)
    {
      RowNext(t1, first, i, x.a);
      assert LineOK(t1[i], n1);
      if t1[i].target == -1 {
        break;
      }
      ghost var keys := th.keys;
      var l := Letter(t1[i].inp, t1[i].outp);
      LineIsArc(t1, i);
      ArcIsNext(am, x.a, l, t1[i].target);
      var matching, btarget := FindArc(t2, n2, point2, x.b, l);
      NextIs(bm, x.b, l, matching, btarget);
      if !matching {
        ok := false;
        return;
      }
      var y := Triple(t1[i].target, btarget, 0);
      var known := th.Find(y);
      if known == -1 {
        PairKnown(am, bm, th.keys, stack, x, l);
        PushPair(am, bm, th.keys, stack, {x}, y);
        stack := stack + [y];
        known := th.Insert(y);
      }
      MatchedGrows(ArcsIn(t1, first, i), bm, x.b, keys, th.keys);
      MatchOne(ArcsIn(t1, first, i), LineArc(t1[i]), bm, x.b, th.keys);
      i := i + 1;
    }
    RowEnds(t1, n1, first, i, x.a);
  }

  lemma NothingMatched(bm: Net, b: int, keys: seq<Triple>)
    ensures Matched({}, bm, b, keys)
  {
  }

  lemma MatchOne(arcs: set<Arc>, p: Arc, bm: Net, b: int, keys: seq<Triple>)
    requires Matched(arcs, bm, b, keys) && Next(bm.arcs, b, p.letter) != -1
             && Triple(p.dst, Next(bm.arcs, b, p.letter), 0) in keys
    ensures Matched(arcs + {p}, bm, b, keys)
  {
  }

  lemma PairInRange(am: Net, bm: Net, keys: seq<Triple>, stack: seq<Triple>, but: set<Triple>, x: Triple)
    requires Traversed(am, bm, keys, stack, but) && x in keys
    ensures 0 <= x.a < am.states && 0 <= x.b < bm.states && x.c == 0 && Together(am, bm, x)
  {
  }

  lemma ArcIsNext(m: Net, q: int, l: Letter, r: int)
    requires Deterministic(m) && Arc(q, l, r) in m.arcs
    ensures Next(m.arcs, q, l) == r && 0 <= r < m.states
  {
  }

  lemma PairKnown(am: Net, bm: Net, keys: seq<Triple>, stack: seq<Triple>, x: Triple, l: Letter)
    requires Deterministic(am) && Deterministic(bm) && Traversed(am, bm, keys, stack, {x}) && x in keys
    requires Next(am.arcs, x.a, l) != -1 && Next(bm.arcs, x.b, l) != -1
    ensures Together(am, bm, Triple(Next(am.arcs, x.a, l), Next(bm.arcs, x.b, l), 0))
  {
    hide Deterministic, Agree;
    TogetherNext(am, bm, x, l);
  }

  // Every arc of b has a match at a.
  method MatchBack(x: Triple, t1: seq<Line>, n1: nat, point1: seq<StateArr>, t2: seq<Line>, n2: nat,
                   point2: seq<StateArr>)
    returns (ok: bool)
    requires IsNet(t1, n1) && PointersOK(point1, t1, n1) && IsNet(t2, n2) && PointersOK(point2, t2, n2)
    requires Deterministic(Meaning(t1, n1)) && Deterministic(Meaning(t2, n2)) && 0 <= x.a < n1 && 0 <= x.b < n2
    ensures ok ==> forall q :: q in ArcsAt(ArcsOf(t2), x.b) ==> Next(ArcsOf(t1), x.a, q.letter) != -1
    ensures !ok ==> exists l :: Next(ArcsOf(t2), x.b, l) != -1 && Next(ArcsOf(t1), x.a, l) == -1
  {
    hide IsNet, PointersOK, ArcsOf, Deterministic, LoneFlags, Grouped, ArcsIn, ArcsAt;
    ghost var am, bm := Meaning(t1, n1), Meaning(t2, n2);
    ok := true;
    NetLines(t2, n2);
    RowStart(t2, point2, n2, x.b);
    var first := point2[x.b].first;
    var i := first;
    while i < |t2| && t2[i].state == x.b
      invariant OnRow(t2, first, i, x.b) && first < |t2| && t2[first].state == x.b
      invariant forall q :: q in ArcsIn(t2, first, i) ==> Next(am.arcs, x.a, q.letter) != -1
    {
      RowNext(t2, first, i, x.b);
      assert LineOK(t2[i], n2);
      if t2[i].target == -1 {
        break;
      }
      var l := Letter(t2[i].inp, t2[i].outp);
      LineIsArc(t2, i);
      ArcIsNext(bm, x.b, l, t2[i].target);
      var matching, target := FindArc(t1, n1, point1, x.a, l);
      NextIs(am, x.a, l, matching, target);
      if !matching {
        return false;
      }
      i := i + 1;
    }
    RowEnds(t2, n2, first, i, x.b);
  }

  // fsm_equivalent.
  method FsmEquivalent(t1: seq<Line>, n1: nat, t2: seq<Line>, n2: nat) returns (equivalent: bool)
    requires IsNet(t1, n1) && Deterministic(Meaning(t1, n1)) && IsNet(t2, n2) && Deterministic(Meaning(t2, n2))
    ensures equivalent <==> SameRuns(Meaning(t1, n1), Meaning(t2, n2))
    ensures equivalent ==> SameLanguage(Meaning(t1, n1), Meaning(t2, n2))
    ensures Trim(Meaning(t1, n1)) && Trim(Meaning(t2, n2)) ==>
              (equivalent <==> SameLanguage(Meaning(t1, n1), Meaning(t2, n2)))
  {
    hide IsNet, PointersOK, ArcsOf, Deterministic, Traversed, LoneFlags, Grouped, ArcsAt, TripleTable.Valid,
         SameLanguage, SameRuns, Trim, FinalsOf;
    ghost var am, bm := Meaning(t1, n1), Meaning(t2, n2);
    NetLines(t1, n1);
    NetLines(t2, n2);
    var point1 := InitStatePointers(t1, n1);
    var point2 := InitStatePointers(t2, n2);
    var th := new TripleTable();
    var key := th.Insert(Triple(0, 0, 0));
    var stack := [Triple(0, 0, 0)];
    assert th.keys == [Triple(0, 0, 0)];
    if Trim(am) && Trim(bm) {
      TrimRuns(am, bm);
    }
    StartTraversal(am, bm);
    while stack != []
      invariant th.Valid() && fresh(th.triplets) && Traversed(am, bm, th.keys, stack, {})
      decreases |Intersect.PairStates(n1, n2)| - |th.keys|, |stack|
    {
      KeysBound(am, bm, th.keys, stack);
      PopPair(am, bm, th.keys, stack);
      var x := stack[|stack| - 1];
      stack := stack[..|stack| - 1];
      PairInRange(am, bm, th.keys, stack, {x}, x);
      FlagsRead(point1, t1, n1, point2, t2, n2, x);
      if point1[x.a].final != point2[x.b].final {
        FinalsDiffer(am, bm, x);
        return false;
      }
      var ok;
      stack, ok := MatchForward(th, stack, x, t1, n1, point1, t2, n2, point2);
      if !ok {
        Unmatched(am, bm, x);
        return false;
      }
      ok := MatchBack(x, t1, n1, point1, t2, n2, point2);
      if !ok {
        TogetherSwap(am, bm, x);
        Unmatched(bm, am, Triple(x.b, x.a, 0));
        return false;
      }
      PairDone(am, bm, th.keys, stack, x);
    }
    AllTraversed(am, bm, th.keys);
    SameRunsAccept(am, bm);
    return true;
  }

  lemma AllTraversed(am: Net, bm: Net, keys: seq<Triple>)
    requires Deterministic(am) && Deterministic(bm) && Traversed(am, bm, keys, [], {})
    ensures SameRuns(am, bm)
  {
    hide Agree, Deterministic;
    AllAgree(am, bm, keys);
  }

  lemma KeysBound(am: Net, bm: Net, keys: seq<Triple>, stack: seq<Triple>)
    requires Traversed(am, bm, keys, stack, {})
    ensures |keys| <= |Intersect.PairStates(am.states, bm.states)|
  {
    hide Agree;
    NoDupSize(keys);
    SubsetSize(Elements(keys), Intersect.PairStates(am.states, bm.states));
  }

  lemma TogetherSwap(am: Net, bm: Net, x: Triple)
    requires Together(am, bm, x)
    ensures Together(bm, am, Triple(x.b, x.a, 0))
  {
    var w :| Run(am.arcs, 0, w) == x.a && Run(bm.arcs, 0, w) == x.b;
    assert Run(bm.arcs, 0, w) == x.b && Run(am.arcs, 0, w) == x.a;
  }

  lemma Unmatched(am: Net, bm: Net, x: Triple)
    requires Deterministic(am) && Deterministic(bm) && Together(am, bm, x)
    requires exists l :: Next(am.arcs, x.a, l) != -1 && Next(bm.arcs, x.b, l) == -1
    ensures !SameRuns(am, bm) && !SameRuns(bm, am)
  {
    hide Deterministic, SameRuns;
    var l :| Next(am.arcs, x.a, l) != -1 && Next(bm.arcs, x.b, l) == -1;
    ArcMissing(am, bm, x, l);
  }

  lemma FlagsRead(point1: seq<StateArr>, t1: seq<Line>, n1: nat, point2: seq<StateArr>, t2: seq<Line>, n2: nat,
                  x: Triple)
    requires PointersOK(point1, t1, n1) && PointersOK(point2, t2, n2) && 0 <= x.a < n1 && 0 <= x.b < n2
    ensures |point1| == n1 && |point2| == n2
    ensures point1[x.a].final <==> x.a in Meaning(t1, n1).finals
    ensures point2[x.b].final <==> x.b in Meaning(t2, n2).finals
  {
  }
}
