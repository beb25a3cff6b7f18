// The powerset construction on graphs: closed sets of states as new states.

module Powerset {
  import opened Nets
  import opened Counting

  // Everything reachable over 0:0 arcs.
  ghost function EClose(m: Net, s: set<int>): set<int> {
    set q | q in Below(m.states) && exists p :: p in s && Spells(m.arcs, p, [], q)
  }

  ghost function Step(m: Net, s: set<int>, l: Letter): set<int> {
    set q | q in Below(m.states) && exists p :: p in s && Arc(p, l, q) in m.arcs
  }

  // The states in which m can be after reading w.
  ghost function ReachedBy(m: Net, w: seq<Letter>): set<int> {
    set q | q in Below(m.states) && exists s :: s in m.starts && Spells(m.arcs, s, w, q)
  }

  ghost predicate StepsTo(m: Net, k: Net, sets: seq<set<int>>, T: int, l: Letter)
    requires 0 <= T < |sets|
  {
    var U := Next(k.arcs, T, l);
    if Step(m, sets[T], l) == {} then U == -1
    else 0 <= U < |sets| && sets[U] == EClose(m, Step(m, sets[T], l))
  }

  // k is the reachable part of the powerset net of m.
  ghost predicate IsPowerset(m: Net, k: Net, sets: seq<set<int>>) {
    && Deterministic(k) && |sets| == k.states > 0
    && sets[0] == EClose(m, m.starts)
    && (forall T, l :: 0 <= T < |sets| && l != EPS ==> StepsTo(m, k, sets, T, l))
    && (forall T :: 0 <= T < |sets| ==> (T in k.finals <==> sets[T] * m.finals != {}))
    && (forall T, U :: 0 <= T < U < |sets| ==> sets[T] != sets[U])
  }

  ghost predicate IsSubsetNet(m: Net, k: Net) {
    exists sets :: IsPowerset(m, k, sets)
  }

  // The subset net has no letters of its own.
  lemma PowersetLetters(m: Net, k: Net, sets: seq<set<int>>)
    requires IsPowerset(m, k, sets)
    ensures Letters(k.arcs) <= Letters(m.arcs)
  {
    hide EClose;
    forall l | l in Letters(k.arcs) ensures l in Letters(m.arcs) {
      var a :| a in k.arcs && a.letter == l;
      assert StepsTo(m, k, sets, a.src, l);
      assert a == Arc(a.src, l, a.dst) && a.dst != -1;
      var q :| q in Step(m, sets[a.src], l);
      var p :| p in sets[a.src] && Arc(p, l, q) in m.arcs;
    }
  }

  lemma SubsetLetters(m: Net, k: Net)
    requires IsSubsetNet(m, k)
    ensures Letters(k.arcs) <= Letters(m.arcs)
  {
    hide IsPowerset, Letters;
    var sets :| IsPowerset(m, k, sets);
    PowersetLetters(m, k, sets);
  }

  lemma {:induction false} SplitLast(arcs: set<Arc>, p: int, path: seq<Arc>, q: int, w: seq<Letter>, l: Letter)
    returns (u: seq<Arc>, a: Arc, v: seq<Arc>)
    requires Path(arcs, p, path, q) && Word(path) == w + [l]
    ensures Path(arcs, p, u, a.src) && a in arcs && Path(arcs, a.dst, v, q)
    ensures Word(u) == w && a.letter == l != EPS && Word(v) == []
    decreases path
  {
    var b := path[0];
    if b.letter != EPS && w == [] {
      u, a, v := [], b, path[1..];
      assert Word(path) == [b.letter] + Word(path[1..]);
      assert Word(path)[0] == b.letter && (w + [l])[0] == l;
    } else {
      var w' := if b.letter == EPS then w else w[1..];
      assert Word(path) == (if b.letter == EPS then [] else [b.letter]) + Word(path[1..]);
      assert Word(path[1..]) == w' + [l] by {
        if b.letter != EPS {
          assert (w + [l])[0] == b.letter && (w + [l])[1..] == w[1..] + [l];
          assert ([b.letter] + Word(path[1..]))[1..] == Word(path[1..]);
        }
      }
      u, a, v := SplitLast(arcs, b.dst, path[1..], q, w', l);
      assert ([b] + u)[1..] == u;
      u := [b] + u;
      if b.letter != EPS {
        assert w == [w[0]] + w[1..] && (w + [l])[0] == w[0];
      }
    }
  }

  // Reading one more letter: step, then close.
  lemma ReachedBySnoc(m: Net, w: seq<Letter>, l: Letter)
    requires Closed(m)
    ensures l != EPS ==> ReachedBy(m, w + [l]) == EClose(m, Step(m, ReachedBy(m, w), l))
    ensures l == EPS ==> ReachedBy(m, w + [l]) == {}
  {
    hide ReachedBy, EClose, Step;
    forall q | q in ReachedBy(m, w + [l]) ensures l != EPS && q in EClose(m, Step(m, ReachedBy(m, w), l)) {
      LastStep(m, w, l, q);
    }
    if l != EPS {
      forall q | q in EClose(m, Step(m, ReachedBy(m, w), l)) ensures q in ReachedBy(m, w + [l]) {
        OneMoreStep(m, w, l, q);
      }
    }
  }

  lemma LastStep(m: Net, w: seq<Letter>, l: Letter, q: int)
    requires Closed(m) && q in ReachedBy(m, w + [l])
    ensures l != EPS && q in EClose(m, Step(m, ReachedBy(m, w), l))
  {
    hide Path, Word;
    var s :| s in m.starts && Spells(m.arcs, s, w + [l], q);
    var path :| Path(m.arcs, s, path, q) && Word(path) == w + [l];
    var u, a, v := SplitLast(m.arcs, s, path, q, w, l);
    assert Spells(m.arcs, s, w, a.src) && a.src in ReachedBy(m, w);
    assert a == Arc(a.src, l, a.dst);
    assert a.dst in Step(m, ReachedBy(m, w), l);
    assert Spells(m.arcs, a.dst, [], q);
  }

  lemma OneMoreStep(m: Net, w: seq<Letter>, l: Letter, q: int)
    requires Closed(m) && l != EPS && q in EClose(m, Step(m, ReachedBy(m, w), l))
    ensures q in ReachedBy(m, w + [l])
  {
    hide Spells;
    var p :| p in Step(m, ReachedBy(m, w), l) && Spells(m.arcs, p, [], q);
    var r :| r in ReachedBy(m, w) && Arc(r, l, p) in m.arcs;
    var s :| s in m.starts && Spells(m.arcs, s, w, r);
    SpellsOn(m.arcs, s, w, r, l, p, q);
  }

  lemma SpellsOn(arcs: set<Arc>, s: int, w: seq<Letter>, r: int, l: Letter, p: int, q: int)
    requires Spells(arcs, s, w, r) && Arc(r, l, p) in arcs && l != EPS && Spells(arcs, p, [], q)
    ensures Spells(arcs, s, w + [l], q)
  {
    hide Path, Word;
    var u :| Path(arcs, s, u, r) && Word(u) == w;
    var v :| Path(arcs, p, v, q) && Word(v) == [];
    PathSnoc(arcs, s, u, Arc(r, l, p));
    PathConcat(arcs, s, u + [Arc(r, l, p)], p, v, q);
    assert (w + [l]) + [] == w + [l];
  }

  // The powerset state after w is the set of states m can be in after w.
  lemma {:induction false} PowersetRun(m: Net, k: Net, sets: seq<set<int>>, w: seq<Letter>)
    requires Closed(m) && IsPowerset(m, k, sets)
    ensures var T := Run(k.arcs, 0, w);
            if T == -1 then ReachedBy(m, w) == {} else 0 <= T < |sets| && ReachedBy(m, w) == sets[T]
    decreases |w|
  {
    if w == [] {
      assert ReachedBy(m, w) == EClose(m, m.starts);
    } else {
      var v, l := w[..|w| - 1], w[|w| - 1];
      assert w == v + [l];
      PowersetRun(m, k, sets, v);
      ReachedBySnoc(m, v, l);
      RunConcat(k.arcs, 0, v, [l]);
      var T := Run(k.arcs, 0, v);
      assert [l][1..] == [];
      assert Run(k.arcs, T, [l]) == Next(k.arcs, T, l);
      if T == -1 {
        assert Step(m, {}, l) == {} && EClose(m, {}) == {};
      } else if l != EPS {
        assert StepsTo(m, k, sets, T, l);
        assert EClose(m, {}) == {};
      }
    }
  }

  lemma PowersetLanguage(m: Net, k: Net, sets: seq<set<int>>)
    requires Closed(m) && IsPowerset(m, k, sets)
    ensures SameLanguage(m, k)
  {
    forall w ensures Accepts(m, w) <==> Accepts(k, w) {
      PowersetRun(m, k, sets, w);
      AcceptsByRun(k, w);
      if Accepts(m, w) {
        var s, f :| s in m.starts && f in m.finals && Spells(m.arcs, s, w, f);
        assert f in ReachedBy(m, w) * m.finals;
      }
      if Accepts(k, w) {
        var f :| f in ReachedBy(m, w) * m.finals;
      }
    }
  }
}
