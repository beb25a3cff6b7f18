// fsm_minimize_brz (minimize.c): reverse, determinize, reverse, determinize.
// Reversal adds a start state, so the result may have one state too many.

module Brzozowski {
  import opened Nets
  import opened Counting
  import opened Nerode
  import opened Powerset
  import opened Reversal
  import Widths
  import Determinize
  import Construct
  import Pointers
  import Order

  // d is deterministic with all states reachable, r its reversal, and k the
  // subset net of r.
  ghost predicate Turned(d: Net, r: Net, k: Net, sets: seq<set<int>>) {
    Deterministic(d) && AllReachable(d) && IsReversal(d, r) && IsPowerset(r, k, sets) && AllReachable(k)
  }

  lemma TurnedFacts(d: Net, r: Net, k: Net, sets: seq<set<int>>)
    requires Turned(d, r, k, sets)
    ensures Deterministic(d) && AllReachable(d) && Closed(r) && r.starts == {0} && Deterministic(k) && AllReachable(k)
            && |sets| == k.states > 0
    ensures forall T, U :: 0 <= T < U < |sets| ==> sets[T] != sets[U]
  {
  }

  lemma SpellsIsRun(d: Net, p: int, u: seq<Letter>)
    requires Deterministic(d)
    ensures (exists f :: f in d.finals && Spells(d.arcs, p, u, f)) <==> AcceptsFrom(d, p, u)
  {
    if f :| f in d.finals && Spells(d.arcs, p, u, f) {
      var path :| Path(d.arcs, p, path, f) && Word(path) == u;
      PathIsRun(d, p, path, f);
    }
    if AcceptsFrom(d, p, u) {
      var path := RunIsPath(d, p, u);
      assert Spells(d.arcs, p, u, Run(d.arcs, p, u));
    }
  }

  // The reversed net is in q + 1 after w when the net accepts w backwards from q.
  lemma InSet(d: Net, r: Net, w: seq<Letter>, q: int)
    requires Deterministic(d) && IsReversal(d, r)
    ensures q > 0 ==> (q in ReachedBy(r, w) <==> AcceptsFrom(d, q - 1, Backwards(w)))
    ensures 0 in ReachedBy(r, w) ==> w == []
    ensures q in ReachedBy(r, w) ==> q >= 0
  {
    hide Run;
    OnlyAtOnce(d, r, w);
    if q > 0 {
      ReachedBack(d, r, w, q);
      SpellsIsRun(d, q - 1, Backwards(w));
      if Spells(r.arcs, 0, w, q) {
        var path :| Path(r.arcs, 0, path, q) && Word(path) == w;
        if path != [] {
          BackArc(d, r, path[0]);
          assert path[0] in r.arcs;
          PathStays(r, 0, path, q);
        }
      }
    }
  }

  // The states of the subset net, and words to them.
  lemma SetByWord(d: Net, r: Net, k: Net, sets: seq<set<int>>, T: nat) returns (w: seq<Letter>)
    requires Turned(d, r, k, sets) && T < |sets|
    ensures Run(k.arcs, 0, w) == T && ReachedBy(r, w) == sets[T] && (T > 0 ==> 0 !in sets[T] && w != [])
  {
    hide IsReversal, IsPowerset, ReachedBy;
    TurnedFacts(d, r, k, sets);
    w := ReachedByWord(k, T);
    PowersetRun(r, k, sets, w);
    InSet(d, r, w, 0);
  }

  // A word that is accepted from T exactly when q is in its set.
  lemma Witness(d: Net, r: Net, k: Net, sets: seq<set<int>>, q: nat) returns (x: seq<Letter>)
    requires Turned(d, r, k, sets) && 0 < q <= d.states
    ensures forall T :: 0 < T < |sets| ==> (AcceptsFrom(k, T, x) <==> q in sets[T])
  {
    hide IsReversal, IsPowerset, ReachedBy, AcceptsFrom, Run;
    TurnedFacts(d, r, k, sets);
    var y := ReachedByWord(d, q - 1);
    x := Backwards(y);
    forall T | 0 < T < |sets| ensures AcceptsFrom(k, T, x) <==> q in sets[T] {
      var w := SetByWord(d, r, k, sets, T);
      RunOn(k, w, x);
      PowersetLanguage(r, k, sets);
      ReversalLanguage(d, r, w + x);
      BackwardsConcat(w, x);
      BackwardsTwice(y);
      RunOn(d, y, Backwards(w));
      InSet(d, r, w, q);
    }
  }

  lemma RunOn(m: Net, u: seq<Letter>, v: seq<Letter>)
    requires Deterministic(m)
    ensures AcceptsFrom(m, Run(m.arcs, 0, u), v) <==> Accepts(m, u + v)
  {
    AcceptsByRun(m, u + v);
    RunConcat(m.arcs, 0, u, v);
  }

  // What is in a set names a state of d.
  lemma MemberBound(d: Net, r: Net, w: seq<Letter>, q: int)
    requires Deterministic(d) && IsReversal(d, r) && q in ReachedBy(r, w) && q > 0
    ensures q <= d.states
  {
    InSet(d, r, w, q);
    var u := Backwards(w);
    if u != [] {
      assert Next(d.arcs, q - 1, u[0]) != -1;
    }
  }

  // Any two states but the first accept different words.
  lemma Apart(d: Net, r: Net, k: Net, sets: seq<set<int>>, T: nat, U: nat)
    requires Turned(d, r, k, sets) && 0 < T < |sets| && 0 < U < |sets| && T != U
    ensures Inequivalent(k, T, U)
  {
    hide IsReversal, IsPowerset, ReachedBy, AcceptsFrom;
    TurnedFacts(d, r, k, sets);
    var v := SetByWord(d, r, k, sets, T);
    var w := SetByWord(d, r, k, sets, U);
    var q := Difference(sets[T], sets[U]);
    InSet(d, r, v, q);
    InSet(d, r, w, q);
    if q in sets[T] {
      MemberBound(d, r, v, q);
    } else {
      MemberBound(d, r, w, q);
    }
    var x := Witness(d, r, k, sets, q);
    assert AcceptsFrom(k, T, x) != AcceptsFrom(k, U, x);
  }

  lemma Difference(a: set<int>, b: set<int>) returns (q: int)
    requires a != b
    ensures q in a <==> q !in b
  {
    assert (forall x :: x in a <==> x in b) ==> a == b;
    q :| (q in a) != (q in b);
  }

  // The sets are not empty.
  lemma SomeMember(d: Net, r: Net, k: Net, sets: seq<set<int>>, T: nat) returns (q: int)
    requires Turned(d, r, k, sets) && 0 < T < |sets|
    ensures q in sets[T] && 0 < q <= d.states
  {
    hide IsReversal;
    TurnedFacts(d, r, k, sets);
    var w := SetByWord(d, r, k, sets, T);
    var v, l := w[..|w| - 1], w[|w| - 1];
    assert w == v + [l];
    RunConcat(k.arcs, 0, v, [l]);
    var V := Run(k.arcs, 0, v);
    RunStays(k, 0, v);
    assert [l][1..] == [];
    assert Next(k.arcs, V, l) == T;
    assert V != -1 && Arc(V, l, T) in k.arcs && l != EPS;
    assert StepsTo(r, k, sets, V, l);
    q :| q in Step(r, sets[V], l);
    assert Path(r.arcs, q, [], q) && Word([]) == [];
    assert q in EClose(r, Step(r, sets[V], l));
    InSet(d, r, w, q);
    MemberBound(d, r, w, q);
  }

  // ---- At most one state more than necessary ----

  ghost predicate NearlyReduced(k: Net) {
    forall p, q :: 0 < p < k.states && 0 < q < k.states && p != q ==> Inequivalent(k, p, q)
  }

  lemma OneStateMore(d: Net, r: Net, k: Net, sets: seq<set<int>>, other: Net)
    requires Turned(d, r, k, sets) && Deterministic(other) && SameLanguage(k, other)
    ensures k.states <= other.states + 1
  {
    hide IsReversal, IsPowerset, ReachedBy, AcceptsFrom, Turned, Accepts, Run, Reachable;
    TurnedFacts(d, r, k, sets);
    var us := AccessWords(k, k.states);
    var image := seq(k.states - 1, q requires 0 <= q < k.states - 1 => Run(other.arcs, 0, us[q + 1]));
    forall q | 0 <= q < k.states - 1 ensures 0 <= image[q] < other.states {
      var e := SomeMember(d, r, k, sets, q + 1);
      var x := Witness(d, r, k, sets, e);
      SameResidual(k, other, us[q + 1], x);
      RunStays(other, 0, us[q + 1]);
      if image[q] == -1 {
        DeadRun(other, x);
      }
    }
    forall p, q | 0 <= p < q < k.states - 1 ensures image[p] != image[q] {
      Apart(d, r, k, sets, p + 1, q + 1);
      var w :| AcceptsFrom(k, p + 1, w) != AcceptsFrom(k, q + 1, w);
      SameResidual(k, other, us[p + 1], w);
      SameResidual(k, other, us[q + 1], w);
    }
    NoDupBound(image, other.states);
  }

  // Some nonempty word leaves the language as it was.
  ghost predicate Returns(k: Net, u: seq<Letter>) {
    forall w :: Accepts(k, u + w) <==> Accepts(k, w)
  }

  ghost predicate NoneReturns(k: Net) {
    forall u :: u != [] ==> !Returns(k, u)
  }

  lemma NoneReturnsReduced(d: Net, r: Net, k: Net, sets: seq<set<int>>)
    requires Turned(d, r, k, sets) && Nonempty(k)
    ensures Reduced(k) <==> NoneReturns(k)
  {
    hide IsReversal, IsPowerset, ReachedBy, AcceptsFrom, Turned, Run;
    TurnedFacts(d, r, k, sets);
    if u :| u != [] && Returns(k, u) {
      Returned(d, r, k, sets, u);
    }
    if NoneReturns(k) {
      forall p, q | 0 <= p < k.states && 0 <= q < k.states && p != q ensures Inequivalent(k, p, q) {
        if p > 0 && q > 0 {
          Apart(d, r, k, sets, p, q);
        } else {
          NotReturned(d, r, k, sets, if p > 0 then p else q);
        }
      }
    }
  }

  ghost predicate Nonempty(m: Net) {
    exists w :: Accepts(m, w)
  }

  // o is a deterministic net without superfluous states.
  ghost predicate IsSmallest(o: Net) {
    Deterministic(o) && AllReachable(o) && Reduced(o)
  }

  ghost predicate NoReentry(o: Net) {
    forall a :: a in o.arcs ==> a.dst != 0
  }

  // The one state too many is there exactly when the smallest net of the
  // language has an arc into its start state.
  lemma ReducedExactly(d: Net, r: Net, k: Net, sets: seq<set<int>>, o: Net)
    requires Turned(d, r, k, sets) && Nonempty(k) && IsSmallest(o) && SameLanguage(o, k)
    ensures Reduced(k) <==> NoReentry(o)
  {
    hide Turned, Reduced, Deterministic, AllReachable, NoReentry, Returns, Accepts;
    NoneReturnsReduced(d, r, k, sets);
    ReentryReturns(o);
    forall u ensures Returns(o, u) <==> Returns(k, u) {
      SameReturns(o, k, u);
    }
  }

  lemma SameReturns(o: Net, k: Net, u: seq<Letter>)
    requires SameLanguage(o, k)
    ensures Returns(o, u) <==> Returns(k, u)
  {
    hide Accepts;
    if Returns(o, u) {
      forall w ensures Accepts(k, u + w) <==> Accepts(k, w) {
        assert Accepts(o, u + w) <==> Accepts(o, w);
      }
    }
    if Returns(k, u) {
      forall w ensures Accepts(o, u + w) <==> Accepts(o, w) {
        assert Accepts(k, u + w) <==> Accepts(k, w);
      }
    }
  }

  lemma ReentryReturns(o: Net)
    requires IsSmallest(o) && Nonempty(o)
    ensures NoReentry(o) <==> NoneReturns(o)
  {
    hide AcceptsFrom, Reduced, Accepts;
    if a :| a in o.arcs && a.dst == 0 {
      var u := ReachedByWord(o, a.src);
      RunConcat(o.arcs, 0, u, [a.letter]);
      assert Next(o.arcs, a.src, a.letter) == 0;
      assert [a.letter][1..] == [];
      LoopReturns(o, u + [a.letter]);
    }
    if u :| u != [] && Returns(o, u) {
      BackAtStart(o, u);
      var v, l := u[..|u| - 1], u[|u| - 1];
      assert u == v + [l] && [l][1..] == [];
      RunConcat(o.arcs, 0, v, [l]);
      assert Arc(Run(o.arcs, 0, v), l, 0) in o.arcs;
    }
  }

  lemma LoopReturns(o: Net, u: seq<Letter>)
    requires Deterministic(o) && Run(o.arcs, 0, u) == 0
    ensures Returns(o, u)
  {
    forall w ensures Accepts(o, u + w) <==> Accepts(o, w) {
      RunOn(o, u, w);
      AcceptsByRun(o, w);
    }
  }

  // A word that leaves the language as it was leads back to the start.
  lemma BackAtStart(o: Net, u: seq<Letter>)
    requires IsSmallest(o) && Nonempty(o) && Returns(o, u)
    ensures Run(o.arcs, 0, u) == 0
  {
    hide AllReachable, Accepts;
    var q := Run(o.arcs, 0, u);
    assert 0 < q < o.states ==> Inequivalent(o, q, 0);
    forall w ensures AcceptsFrom(o, q, w) == AcceptsFrom(o, 0, w) {
      RunOn(o, u, w);
      AcceptsByRun(o, w);
      assert Accepts(o, u + w) <==> Accepts(o, w);
    }
    RunStays(o, 0, u);
    if q == -1 {
      var w :| Accepts(o, w);
      AcceptsByRun(o, w);
      DeadRun(o, w);
    }
  }

  lemma NotReturned(d: Net, r: Net, k: Net, sets: seq<set<int>>, T: nat)
    requires Turned(d, r, k, sets) && 0 < T < |sets| && NoneReturns(k)
    ensures Inequivalent(k, 0, T) && Inequivalent(k, T, 0)
  {
    hide IsReversal, IsPowerset, ReachedBy, AcceptsFrom, Turned;
    TurnedFacts(d, r, k, sets);
    var u := SetByWord(d, r, k, sets, T);
    assert !Returns(k, u);
    var w :| Accepts(k, u + w) != Accepts(k, w);
    RunOn(k, u, w);
    RunOn(k, [], w);
    assert [] + w == w;
    assert AcceptsFrom(k, 0, w) != AcceptsFrom(k, T, w);
  }

  lemma Returned(d: Net, r: Net, k: Net, sets: seq<set<int>>, u: seq<Letter>)
    requires Turned(d, r, k, sets) && u != [] && Returns(k, u) && Nonempty(k)
    ensures !Reduced(k)
  {
    hide IsReversal, IsPowerset, AcceptsFrom;
    TurnedFacts(d, r, k, sets);
    var T := Run(k.arcs, 0, u);
    PowersetRun(r, k, sets, u);
    var w0 :| Accepts(k, w0);
    assert Accepts(k, u + w0);
    RunOn(k, u, w0);
    if T == -1 {
      DeadRun(k, w0);
    }
    StartSet(d, r, k, sets);
    InSet(d, r, u, 0);
    assert T > 0;
    forall w ensures AcceptsFrom(k, T, w) == AcceptsFrom(k, 0, w) {
      RunOn(k, u, w);
      RunOn(k, [], w);
      assert [] + w == w;
    }
    assert !Inequivalent(k, T, 0);
  }

  lemma StartSet(d: Net, r: Net, k: Net, sets: seq<set<int>>)
    requires Turned(d, r, k, sets)
    ensures 0 in sets[0]
  {
    assert 0 in r.starts;
    assert Path(r.arcs, 0, [], 0) && Word([]) == [];
    assert Spells(r.arcs, 0, [], 0);
  }

  // ---- fsm_minimize_brz ----

  ghost predicate IsTurned(d: Net, k: Net) {
    exists r, sets :: IsReversal(d, r) && IsPowerset(r, k, sets)
  }

  // What the method promises: at most one state more than necessary.
  ghost predicate NearlyMinimal(m: Net, k: Net) {
    && Deterministic(k) && AllReachable(k) && SameLanguage(m, k) && NearlyReduced(k)
    && (forall other :: Deterministic(other) && SameLanguage(k, other) ==> k.states <= other.states + 1)
    && (if Nonempty(m) then forall o :: IsSmallest(o) && SameLanguage(o, k) ==>
                                          (Reduced(k) <==> NoReentry(o)) else k.states == 1)
  }

  lemma TurnedNearlyMinimal(d: Net, k: Net)
    requires Deterministic(d) && AllReachable(d) && AllReachable(k) && IsTurned(d, k)
    ensures Deterministic(k) && NearlyReduced(k)
    ensures forall other :: Deterministic(other) && SameLanguage(k, other) ==> k.states <= other.states + 1
    ensures forall o :: Nonempty(k) && IsSmallest(o) && SameLanguage(o, k) ==> (Reduced(k) <==> NoReentry(o))
  {
    hide Accepts, Nonempty, NoReentry, IsSmallest, Reduced, SameLanguage, IsReversal, IsPowerset, Inequivalent;
    var r, sets :| IsReversal(d, r) && IsPowerset(r, k, sets);
    assert Turned(d, r, k, sets);
    hide Turned;
    TurnedFacts(d, r, k, sets);
    forall p, q | 0 < p < k.states && 0 < q < k.states && p != q ensures Inequivalent(k, p, q) {
      Apart(d, r, k, sets, p, q);
    }
    forall other | Deterministic(other) && SameLanguage(k, other) ensures k.states <= other.states + 1 {
      OneStateMore(d, r, k, sets, other);
    }
    forall o | Nonempty(k) && IsSmallest(o) && SameLanguage(o, k) ensures Reduced(k) <==> NoReentry(o) {
      ReducedExactly(d, r, k, sets, o);
    }
  }

  // A reversal of a net with final states has a 0:0 arc.
  lemma NotKept(m: Net, r: Net)
    requires IsReversal(m, r) && m.finals != {}
    ensures !Deterministic(r)
  {
    assert (forall f :: f !in m.finals) ==> m.finals == {};
    var f :| f in m.finals;
    EntryArc(m, r, f);
  }

  lemma ReversalLetters(m: Net, r: Net)
    requires IsReversal(m, r)
    ensures Letters(r.arcs) <= Letters(m.arcs) + {EPS}
  {
    forall l | l in Letters(r.arcs) ensures l in Letters(m.arcs) + {EPS} {
      var a :| a in r.arcs && a.letter == l;
      BackArc(m, r, a);
    }
  }

  // Without arcs, only state 0 can be reached.
  lemma OneState(k: Net)
    requires AllReachable(k) && k.starts == {0} && k.arcs == {} && k.states > 0
    ensures k.states == 1
  {
    if k.states > 1 {
      assert Reachable(k, 1);
      NoWay(k.arcs, 1);
    }
  }

  lemma NoWay(arcs: set<Arc>, q: int)
    requires arcs == {} && Reaches(arcs, 0, q)
    ensures q == 0
  {
    var path :| Path(arcs, 0, path, q);
  }

  // Half of the work: reverse, then determinize.
  method ReverseDeterminize(t: seq<Line>, n: nat) returns (out: seq<Line>, states: nat)
    requires IsTable(t, n) && |Letters(ArcsOf(t)) + {EPS}| < Widths.INT_MAX
    ensures Pointers.IsNet(out, states) && Order.InOrder(out) && Deterministic(Meaning(out, states))
            && AllReachable(Meaning(out, states))
    ensures forall w :: Accepts(Meaning(out, states), w) <==> Accepts(Meaning(t, n), Backwards(w))
    ensures Letters(ArcsOf(out)) <= Letters(ArcsOf(t)) + {EPS}
    ensures if FinalsOf(t) != {} && StartsOf(t) != {} then IsTurned(Meaning(t, n), Meaning(out, states))
                                                           else states == 1
  {
    hide IsTable, ArcsOf, FinalsOf, StartsOf, Accepts, IsReversal, IsSubsetNet, Deterministic, Letters, Order.InOrder,
         Grouped, IsPowerset, IsTurned, Order.Ascending;
    var rev, revStates := FsmReverse(t, n);
    ghost var m, r := Meaning(t, n), Meaning(rev, revStates);
    if FinalsOf(t) != {} && StartsOf(t) != {} {
      NotKept(m, r);
      ReversalLetters(m, r);
    } else {
      EmptyLetters();
    }
    SubsetSize(Letters(ArcsOf(rev)), Letters(ArcsOf(t)) + {EPS});
    Order.AscendingInOrder(rev, revStates);
    var kept;
    out, states, kept := Determinize.FsmDeterminize(rev, revStates, false);
    ghost var k := Meaning(out, states);
    if !kept {
      SubsetLetters(r, k);
    }
    if FinalsOf(t) != {} && StartsOf(t) != {} {
      TurnedBy(m, r, k);
    } else {
      EmptyTurned(k, kept);
    }
  }

  lemma EmptyLetters()
    ensures Letters(ArcsOf([EMPTY_LINE])) == {}
  {
    Construct.EmptyTable();
  }

  lemma TurnedBy(m: Net, r: Net, k: Net)
    requires IsReversal(m, r) && IsSubsetNet(r, k)
    ensures IsTurned(m, k)
  {
    hide IsReversal, IsPowerset;
    var sets :| IsPowerset(r, k, sets);
  }

  // The empty net stays one state.
  lemma EmptyTurned(k: Net, kept: bool)
    requires Deterministic(k)
             && (if kept then k == Meaning([EMPTY_LINE], 1) else Letters(k.arcs) <= Letters(ArcsOf([EMPTY_LINE])))
    requires !kept ==> forall q :: 0 <= q < k.states ==> Reachable(k, q)
    ensures k.states == 1 && AllReachable(k)
  {
    hide Reachable;
    EmptyLetters();
    if kept {
      ZeroReachable(k);
    } else {
      forall a ensures a !in k.arcs {
        assert a in k.arcs ==> a.letter in Letters(k.arcs);
      }
      assert 0 in k.starts;
      OneState(k);
    }
  }

  lemma ZeroReachable(k: Net)
    requires Deterministic(k)
    ensures Reachable(k, 0)
  {
    assert Path(k.arcs, 0, [], 0);
    assert Reaches(k.arcs, 0, 0);
  }

  method FsmMinimizeBrz(t: seq<Line>, n: nat) returns (out: seq<Line>, states: nat)
    requires IsTable(t, n) && |Letters(ArcsOf(t)) + {EPS}| < Widths.INT_MAX
    ensures Pointers.IsNet(out, states) && Order.InOrder(out) && NearlyMinimal(Meaning(t, n), Meaning(out, states))
  {
    hide IsTable, ArcsOf, FinalsOf, StartsOf, Accepts, Deterministic, Letters, Order.InOrder, Grouped, IsTurned,
         NearlyMinimal;
    var half, halfStates := ReverseDeterminize(t, n);
    SubsetSize(Letters(ArcsOf(half)) + {EPS}, Letters(ArcsOf(t)) + {EPS});
    out, states := ReverseDeterminize(half, halfStates);
    ghost var m, d, k := Meaning(t, n), Meaning(half, halfStates), Meaning(out, states);
    DeterministicStart(d);
    TwiceTurned(m, d, k);
  }

  // Two reversals, the first of which gave d.
  lemma TwiceTurned(m: Net, d: Net, k: Net)
    requires Deterministic(d) && AllReachable(d) && Deterministic(k) && AllReachable(k)
    requires forall w :: Accepts(d, w) <==> Accepts(m, Backwards(w))
    requires forall w :: Accepts(k, w) <==> Accepts(d, Backwards(w))
    requires if d.finals != {} then IsTurned(d, k) else k.states == 1
    ensures NearlyMinimal(m, k)
  {
    hide Accepts, Deterministic, IsTurned, NearlyReduced, Reduced, Reachable, IsSmallest, NoReentry, Nonempty;
    forall w ensures Accepts(m, w) <==> Accepts(k, w) {
      BackwardsTwice(w);
    }
    NonemptyAlike(m, d, k);
    if d.finals != {} {
      TurnedNearlyMinimal(d, k);
      SomeAccepted(d);
    } else {
      SmallEnough(d, k);
    }
  }

  lemma DeterministicStart(d: Net)
    requires Deterministic(d)
    ensures d.starts != {}
  {
  }

  // A net of reachable states accepts something as soon as one of them is final.
  lemma NonemptyAlike(m: Net, d: Net, k: Net)
    requires forall w :: Accepts(d, w) <==> Accepts(m, Backwards(w))
    requires forall w :: Accepts(k, w) <==> Accepts(d, Backwards(w))
    ensures Nonempty(m) <==> Nonempty(d)
    ensures Nonempty(d) <==> Nonempty(k)
  {
    hide Accepts;
    if w :| Accepts(m, w) {
      BackwardsTwice(w);
      assert Accepts(d, Backwards(w));
    }
    if w :| Accepts(d, w) {
      BackwardsTwice(w);
      assert Accepts(k, Backwards(w));
    }
  }

  lemma SomeAccepted(d: Net)
    requires Deterministic(d) && AllReachable(d) && d.finals != {}
    ensures Nonempty(d)
  {
    assert (forall f :: f !in d.finals) ==> d.finals == {};
    var f :| f in d.finals;
    var u := ReachedByWord(d, f);
    AcceptsByRun(d, u);
  }

  lemma SmallEnough(d: Net, k: Net)
    requires Deterministic(k) && k.states == 1 && d.finals == {}
    ensures NearlyReduced(k) && !Nonempty(d)
    ensures forall other :: Deterministic(other) && SameLanguage(k, other) ==> k.states <= other.states + 1
  {
  }

  // Full minimality is not reached: for a loop over one letter at a final start
  // state, which is minimal itself, two states of the result are equivalent.
  lemma OneTooMany(l: Letter, k: Net)
    requires l != EPS && NearlyMinimal(Net(1, {Arc(0, l, 0)}, {0}, {0}), k)
    ensures !Reduced(k)
  {
    hide NearlyReduced, Reachable, Accepts;
    var m := Net(1, {Arc(0, l, 0)}, {0}, {0});
    assert Deterministic(m);
    ZeroReachable(m);
    AcceptsByRun(m, []);
    assert Arc(0, l, 0) in m.arcs;
    assert IsSmallest(m) && Nonempty(m) && !NoReentry(m);
  }
}
