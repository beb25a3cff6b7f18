// What fsm_coaccessible (coaccessible.c) keeps, on graphs: the states that
// lead to a final state, renumbered without gaps.

module Pruning {
  import opened Nets

  // How many of the states 1..s are kept.
  ghost function Kept(co: seq<bool>, s: nat): nat
    requires s < |co|
  {
    if s == 0 then 0 else Kept(co, s - 1) + (if co[s] then 1 else 0)
  }

  // The new number of state s; 0 stays 0.
  ghost function Renumber(co: seq<bool>, s: int): nat
    requires 0 <= s < |co|
  {
    Kept(co, s)
  }

  lemma {:induction false} KeptGrows(co: seq<bool>, s: nat, t: nat)
    requires s <= t < |co|
    ensures Kept(co, s) <= Kept(co, t) <= Kept(co, s) + (t - s)
    ensures s < t && co[t] ==> Kept(co, s) < Kept(co, t)
    ensures (forall d :: s < d <= t ==> co[d]) <==> Kept(co, t) == Kept(co, s) + (t - s)
    decreases t
  {
    if s < t {
      KeptGrows(co, s, t - 1);
    }
  }

  // Renumbering keeps the order, so it is one-to-one on kept states.
  lemma RenumberMonotone(co: seq<bool>, s: nat, t: nat)
    requires s < t < |co| && co[s] && co[t]
    ensures Renumber(co, s) < Renumber(co, t)
  {
    KeptGrows(co, s, t);
  }

  lemma RenumberInjective(co: seq<bool>, s: nat, t: nat)
    requires s < |co| && t < |co| && co[s] && co[t] && Renumber(co, s) == Renumber(co, t)
    ensures s == t
  {
    if s < t {
      RenumberMonotone(co, s, t);
    } else if t < s {
      RenumberMonotone(co, t, s);
    }
  }

  // Nothing below s was dropped exactly when s keeps its number.
  lemma RenumberIdentity(co: seq<bool>, s: nat)
    requires s < |co|
    ensures Renumber(co, s) == s <==> forall d :: 0 < d <= s ==> co[d]
  {
    KeptGrows(co, 0, s);
  }

  // Every number up to the last is used.
  lemma {:induction false} RenumberOnto(co: seq<bool>, s: nat, r: nat) returns (q: nat)
    requires s < |co| && co[0] && r <= Kept(co, s)
    ensures q <= s && co[q] && Renumber(co, q) == r
    decreases s
  {
    if s == 0 || (co[s] && Kept(co, s) == r) {
      q := s;
    } else {
      q := RenumberOnto(co, s - 1, r);
    }
  }

  ghost function KeptArcs(arcs: set<Arc>, co: seq<bool>): set<Arc>
    requires forall a :: a in arcs ==> 0 <= a.src < |co| && 0 <= a.dst < |co|
  {
    set a | a in arcs && co[a.src] && co[a.dst] :: Arc(Renumber(co, a.src), a.letter, Renumber(co, a.dst))
  }

  // q is the number of a kept state of s.
  ghost predicate Renumbered(s: set<int>, co: seq<bool>, q: int) {
    exists p :: p in s && 0 <= p < |co| && co[p] && Renumber(co, p) == q
  }

  ghost predicate IsPruned(m: Net, k: Net, co: seq<bool>) {
    && Closed(m) && |co| == m.states > 0 && co[0] && k.states == Kept(co, m.states - 1) + 1
    && (forall q :: 0 <= q < m.states ==> (co[q] <==> Productive(m, q)))
    && k.arcs == KeptArcs(m.arcs, co)
    && (forall q :: q in k.finals <==> Renumbered(m.finals, co, q))
    && (forall q :: q in k.starts <==> Renumbered(m.starts, co, q))
  }

  lemma FinalIsProductive(m: Net, q: int)
    requires q in m.finals
    ensures Productive(m, q)
  {
    assert Path(m.arcs, q, [], q);
    assert Reaches(m.arcs, q, q);
  }

  lemma ProductiveBefore(m: Net, p: int, path: seq<Arc>, q: int)
    requires Path(m.arcs, p, path, q) && Productive(m, q)
    ensures Productive(m, p)
  {
    var f :| f in m.finals && Reaches(m.arcs, q, f);
    var rest :| Path(m.arcs, q, rest, f);
    PathConcat(m.arcs, p, path, q, rest, f);
  }

  // Along a path to a kept state everything is kept.
  lemma {:induction false} KeepPath(m: Net, k: Net, co: seq<bool>, p: int, path: seq<Arc>, f: int)
    returns (path': seq<Arc>)
    requires IsPruned(m, k, co) && 0 <= p < m.states && Path(m.arcs, p, path, f) && 0 <= f < m.states && co[f]
    ensures co[p] && Path(k.arcs, Renumber(co, p), path', Renumber(co, f)) && Word(path') == Word(path)
    decreases path
  {
    ProductiveBefore(m, p, path, f);
    if path == [] {
      path' := [];
    } else {
      var a := path[0];
      var rest := KeepPath(m, k, co, a.dst, path[1..], f);
      var a' := Arc(Renumber(co, p), a.letter, Renumber(co, a.dst));
      assert a' in k.arcs;
      path' := [a'] + rest;
      assert path'[1..] == rest;
    }
  }

  lemma {:induction false} UnkeepPath(m: Net, k: Net, co: seq<bool>, p: int, path': seq<Arc>, q': int)
    returns (path: seq<Arc>, q: int)
    requires IsPruned(m, k, co) && 0 <= p < m.states && co[p] && Path(k.arcs, Renumber(co, p), path', q')
    ensures 0 <= q < m.states && co[q] && Renumber(co, q) == q' && Path(m.arcs, p, path, q) && Word(path') == Word(path)
    decreases path'
  {
    if path' == [] {
      path, q := [], p;
    } else {
      var a' := path'[0];
      var a :| a in m.arcs && co[a.src] && co[a.dst] && a' == Arc(Renumber(co, a.src), a.letter, Renumber(co, a.dst));
      RenumberInjective(co, a.src, p);
      var rest;
      rest, q := UnkeepPath(m, k, co, a.dst, path'[1..], q');
      path := [a] + rest;
      assert path[1..] == rest;
    }
  }

  lemma KeptAccepts(m: Net, k: Net, co: seq<bool>, w: seq<Letter>)
    requires IsPruned(m, k, co) && Accepts(m, w)
    ensures Accepts(k, w)
  {
    var s, f :| s in m.starts && f in m.finals && Spells(m.arcs, s, w, f);
    var path :| Path(m.arcs, s, path, f) && Word(path) == w;
    FinalIsProductive(m, f);
    var path' := KeepPath(m, k, co, s, path, f);
    assert Spells(k.arcs, Renumber(co, s), w, Renumber(co, f));
  }

  lemma AcceptsKept(m: Net, k: Net, co: seq<bool>, w: seq<Letter>)
    requires IsPruned(m, k, co) && Accepts(k, w)
    ensures Accepts(m, w)
  {
    var s', f' :| s' in k.starts && f' in k.finals && Spells(k.arcs, s', w, f');
    var path' :| Path(k.arcs, s', path', f') && Word(path') == w;
    assert Renumbered(m.starts, co, s') && Renumbered(m.finals, co, f');
    var s :| s in m.starts && co[s] && Renumber(co, s) == s';
    var f :| f in m.finals && co[f] && Renumber(co, f) == f';
    var path, q := UnkeepPath(m, k, co, s, path', f');
    FinalIsProductive(m, f);
    RenumberInjective(co, q, f);
    assert Spells(m.arcs, s, w, f);
  }

  lemma PrunedLanguage(m: Net, k: Net, co: seq<bool>)
    requires IsPruned(m, k, co)
    ensures SameLanguage(m, k)
  {
    hide IsPruned, Accepts;
    forall w ensures Accepts(m, w) <==> Accepts(k, w) {
      if Accepts(m, w) {
        KeptAccepts(m, k, co, w);
      }
      if Accepts(k, w) {
        AcceptsKept(m, k, co, w);
      }
    }
  }

  // Every state of the result leads to a final state.
  lemma PrunedTrim(m: Net, k: Net, co: seq<bool>)
    requires IsPruned(m, k, co)
    ensures Trim(k)
  {
    forall q' | 0 <= q' < k.states ensures Productive(k, q') {
      var q := RenumberOnto(co, m.states - 1, q');
      assert Productive(m, q);
      var f :| f in m.finals && Reaches(m.arcs, q, f);
      var path :| Path(m.arcs, q, path, f);
      FinalIsProductive(m, f);
      var path' := KeepPath(m, k, co, q, path, f);
      assert Reaches(k.arcs, q', Renumber(co, f));
    }
  }

  // Pruning keeps nets deterministic, and states reachable.
  lemma PrunedDeterministic(m: Net, k: Net, co: seq<bool>)
    requires IsPruned(m, k, co) && Deterministic(m)
    ensures Deterministic(k) && Letters(k.arcs) <= Letters(m.arcs)
  {
    hide Productive, Kept;
    forall q ensures q in k.starts <==> q == 0 {
      assert q in k.starts <==> Renumbered(m.starts, co, q);
      assert Renumbered(m.starts, co, q) <==> 0 in m.starts && Renumber(co, 0) == q;
      FirstNumber(co);
    }
    forall q | q in k.finals ensures 0 <= q < k.states {
      assert Renumbered(m.finals, co, q);
      var p :| p in m.finals && 0 <= p < |co| && co[p] && Renumber(co, p) == q;
      NumberBound(co, p);
    }
    hide Renumbered;
    forall a | a in k.arcs ensures a.letter != EPS && a.letter in Letters(m.arcs) && 0 <= a.src < k.states
        && 0 <= a.dst < k.states {
      var b := KeptFrom(m, k, co, a);
    }
    forall a, b | a in k.arcs && b in k.arcs && a.src == b.src && a.letter == b.letter ensures a.dst == b.dst {
      var c := KeptFrom(m, k, co, a);
      var d := KeptFrom(m, k, co, b);
      RenumberInjective(co, c.src, d.src);
    }
  }

  lemma FirstNumber(co: seq<bool>)
    requires |co| > 0
    ensures Renumber(co, 0) == 0
  {
  }

  lemma NumberBound(co: seq<bool>, p: nat)
    requires p < |co|
    ensures 0 <= Renumber(co, p) <= Kept(co, |co| - 1)
  {
    KeptGrows(co, p, |co| - 1);
  }

  lemma KeptFrom(m: Net, k: Net, co: seq<bool>, a: Arc) returns (b: Arc)
    requires IsPruned(m, k, co) && a in k.arcs
    ensures b in m.arcs && 0 <= b.src < |co| && 0 <= b.dst < |co| && co[b.src] && co[b.dst]
    ensures a == Arc(Renumber(co, b.src), b.letter, Renumber(co, b.dst))
    ensures 0 <= a.src < k.states && 0 <= a.dst < k.states
  {
    hide Productive, Renumbered;
    b :| b in m.arcs && co[b.src] && co[b.dst] && a == Arc(Renumber(co, b.src), b.letter, Renumber(co, b.dst));
    NumberBound(co, b.src);
    NumberBound(co, b.dst);
  }

  lemma PrunedReachable(m: Net, k: Net, co: seq<bool>)
    requires IsPruned(m, k, co) && forall q :: 0 <= q < m.states ==> Reachable(m, q)
    ensures forall q :: 0 <= q < k.states ==> Reachable(k, q)
  {
    hide Productive;
    forall q' | 0 <= q' < k.states ensures Reachable(k, q') {
      var q := RenumberOnto(co, m.states - 1, q');
      assert Reachable(m, q);
      var s :| s in m.starts && Reaches(m.arcs, s, q);
      var path :| Path(m.arcs, s, path, q);
      assert 0 <= s < m.states;
      var path' := KeepPath(m, k, co, s, path, q);
      assert Renumbered(m.starts, co, Renumber(co, s));
      assert Reaches(k.arcs, Renumber(co, s), q');
    }
  }
}
