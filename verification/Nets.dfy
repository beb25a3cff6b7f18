// Finite-state nets: the flat line table every foma operation works on, the
// labelled graph such a table denotes, and the pair-language of that graph.

module Nets {

  const EPSILON := 0
  const UNKNOWN := 1
  const IDENTITY := 2

  // One entry of the line table.  target == -1 marks a line that only carries
  // the flags of a state without outgoing arcs; state == -1 is the sentinel.
  datatype Line = Line(state: int, inp: int, outp: int, target: int, final: bool, start: bool)

  const SENTINEL := Line(-1, -1, -1, -1, false, false)

  // The one line of fsm_empty_set.
  const EMPTY_LINE := Line(0, -1, -1, -1, false, true)

  datatype Letter = Letter(inp: int, outp: int)

  const EPS := Letter(EPSILON, EPSILON)

  datatype Arc = Arc(src: int, letter: Letter, dst: int)

  // The graph of a table: numbered states, arcs without duplicates, flags.
  datatype Net = Net(states: nat, arcs: set<Arc>, starts: set<int>, finals: set<int>)

  function LineArc(l: Line): Arc {
    Arc(l.state, Letter(l.inp, l.outp), l.target)
  }

  function ArcsOf(t: seq<Line>): set<Arc> {
    set i | 0 <= i < |t| && t[i].target != -1 :: LineArc(t[i])
  }

  ghost function Letters(arcs: set<Arc>): set<Letter> {
    set a | a in arcs :: a.letter
  }

  function FinalsOf(t: seq<Line>): set<int> {
    set i | 0 <= i < |t| && t[i].final :: t[i].state
  }

  function StartsOf(t: seq<Line>): set<int> {
    set i | 0 <= i < |t| && t[i].start :: t[i].state
  }

  function Meaning(t: seq<Line>, n: nat): Net {
    Net(n, ArcsOf(t), StartsOf(t), FinalsOf(t))
  }

  predicate LineOK(l: Line, n: nat) {
    && 0 <= l.state < n
    && (l.target == -1 ==> l.inp == -1 && l.outp == -1)
    && (l.target != -1 ==> 0 <= l.target < n && 0 <= l.inp && 0 <= l.outp)
  }

  // A table over states 0..n-1 (sentinel excluded): every state has a line,
  // and the lines of one state agree on its flags.
  ghost predicate IsTable(t: seq<Line>, n: nat) {
    && (forall i :: 0 <= i < |t| ==> LineOK(t[i], n))
    && (forall q :: 0 <= q < n ==> HasLine(t, q))
    && (forall i, j :: 0 <= i < |t| && 0 <= j < |t| && t[i].state == t[j].state ==>
          t[i].final == t[j].final && t[i].start == t[j].start)
  }

  ghost predicate HasLine(t: seq<Line>, q: int) {
    exists i :: 0 <= i < |t| && t[i].state == q
  }

  // The lines of one state are consecutive.
  ghost predicate Grouped(t: seq<Line>) {
    forall i, j, k :: 0 <= i < j < k < |t| && t[i].state == t[k].state ==> t[j].state == t[i].state
  }

  ghost predicate Closed(m: Net) {
    && (forall a :: a in m.arcs ==> 0 <= a.src < m.states && 0 <= a.dst < m.states)
    && (forall q :: q in m.starts ==> 0 <= q < m.states)
    && (forall q :: q in m.finals ==> 0 <= q < m.states)
  }

  lemma TableIsClosed(t: seq<Line>, n: nat)
    requires IsTable(t, n)
    ensures Closed(Meaning(t, n))
  {
    var m := Meaning(t, n);
    forall a | a in m.arcs ensures 0 <= a.src < n && 0 <= a.dst < n {
      var i :| 0 <= i < |t| && t[i].target != -1 && LineArc(t[i]) == a;
    }
    forall q | q in m.starts ensures 0 <= q < n {
      var i :| 0 <= i < |t| && t[i].start && t[i].state == q;
    }
    forall q | q in m.finals ensures 0 <= q < n {
      var i :| 0 <= i < |t| && t[i].final && t[i].state == q;
    }
  }

  lemma TableLine(t: seq<Line>, n: nat, i: nat)
    requires IsTable(t, n) && i <= |t|
    ensures i < |t| ==> LineOK(t[i], n)
  {
  }

  lemma EndOfTable(t: seq<Line>, n: nat, i: nat, state: int)
    requires IsTable(t, n) && i <= |t| && state == -1 && (i < |t| ==> state == t[i].state)
    ensures i == |t|
  {
    TableLine(t, n, i);
  }

  lemma TableLines(t: seq<Line>, n: nat)
    requires IsTable(t, n)
    ensures forall i :: 0 <= i < |t| ==> LineOK(t[i], n)
  {
  }

  ghost function FinalSet(finals: seq<bool>): set<int> {
    set x | 0 <= x < |finals| && finals[x]
  }

  lemma NoneFinal(n: nat)
    ensures FinalSet(seq(n, _ => false)) == {}
  {
  }

  lemma OneMoreFinal(finals: seq<bool>, s: int)
    requires 0 <= s < |finals|
    ensures finals[s] <==> s in FinalSet(finals)
    ensures FinalSet(finals[s := true]) == FinalSet(finals) + {s}
  {
  }

  lemma NoLines(t: seq<Line>)
    requires t == []
    ensures FinalsOf(t) == {} && StartsOf(t) == {} && ArcsOf(t) == {}
  {
  }

  lemma FinalsSnoc(t: seq<Line>, l: Line)
    ensures FinalsOf(t + [l]) == FinalsOf(t) + (if l.final then {l.state} else {})
  {
    var u := t + [l];
    forall q | q in FinalsOf(u) ensures q in FinalsOf(t) || (l.final && q == l.state) {
      var i :| 0 <= i < |u| && u[i].final && u[i].state == q;
      assert i < |t| ==> t[i] == u[i];
    }
    forall q | q in FinalsOf(t) || (l.final && q == l.state) ensures q in FinalsOf(u) {
      if q in FinalsOf(t) {
        var i :| 0 <= i < |t| && t[i].final && t[i].state == q;
        assert u[i].final && u[i].state == q;
      } else {
        assert u[|t|].final && u[|t|].state == q;
      }
    }
  }

  lemma StartsSnoc(t: seq<Line>, l: Line)
    ensures StartsOf(t + [l]) == StartsOf(t) + (if l.start then {l.state} else {})
  {
    var u := t + [l];
    forall q | q in StartsOf(u) ensures q in StartsOf(t) || (l.start && q == l.state) {
      var i :| 0 <= i < |u| && u[i].start && u[i].state == q;
      assert i < |t| ==> t[i] == u[i];
    }
    forall q | q in StartsOf(t) || (l.start && q == l.state) ensures q in StartsOf(u) {
      if q in StartsOf(t) {
        var i :| 0 <= i < |t| && t[i].start && t[i].state == q;
        assert u[i].start && u[i].state == q;
      } else {
        assert u[|t|] == l;
      }
    }
  }

  // ---- Paths and the pair-language ----

  ghost predicate Path(arcs: set<Arc>, p: int, path: seq<Arc>, q: int)
    decreases path
  {
    if path == [] then p == q
    else path[0] in arcs && path[0].src == p && Path(arcs, path[0].dst, path[1..], q)
  }

  // The letters along a path; 0:0 is the empty string.
  ghost function Word(path: seq<Arc>): seq<Letter> {
    if path == [] then []
    else (if path[0].letter == EPS then [] else [path[0].letter]) + Word(path[1..])
  }

  ghost predicate Spells(arcs: set<Arc>, p: int, w: seq<Letter>, q: int) {
    exists path :: Path(arcs, p, path, q) && Word(path) == w
  }

  ghost predicate Accepts(m: Net, w: seq<Letter>) {
    exists s, f :: s in m.starts && f in m.finals && Spells(m.arcs, s, w, f)
  }

  ghost predicate SameLanguage(m: Net, k: Net) {
    forall w :: Accepts(m, w) <==> Accepts(k, w)
  }

  lemma WordCons(a: Arc, path: seq<Arc>)
    ensures Word([a] + path) == (if a.letter == EPS then [] else [a.letter]) + Word(path)
  {
    assert ([a] + path)[1..] == path;
  }

  lemma Associative(a: seq<Letter>, b: seq<Letter>, c: seq<Letter>)
    ensures (a + b) + c == a + (b + c)
  {
  }

  lemma {:induction false} WordConcat(u: seq<Arc>, v: seq<Arc>)
    ensures Word(u + v) == Word(u) + Word(v)
    decreases u
  {
    hide Word;
    if u == [] {
      assert u + v == v && Word(u) == [] by {
        NoWord();
      }
    } else {
      var a, rest := u[0], u[1..];
      assert u == [a] + rest && u + v == [a] + (rest + v);
      WordCons(a, rest);
      WordCons(a, rest + v);
      WordConcat(rest, v);
      Associative(if a.letter == EPS then [] else [a.letter], Word(rest), Word(v));
    }
  }

  lemma NoWord()
    ensures Word([]) == []
  {
  }

  lemma {:induction false} PathConcat(arcs: set<Arc>, p: int, u: seq<Arc>, q: int, v: seq<Arc>, r: int)
    requires Path(arcs, p, u, q) && Path(arcs, q, v, r)
    ensures Path(arcs, p, u + v, r) && Word(u + v) == Word(u) + Word(v)
    decreases u
  {
    hide Word;
    WordConcat(u, v);
    if u == [] {
      assert u + v == v;
    } else {
      PathConcat(arcs, u[0].dst, u[1..], q, v, r);
      assert (u + v)[1..] == u[1..] + v;
    }
  }

  lemma {:induction false} PathSplit(arcs: set<Arc>, p: int, u: seq<Arc>, v: seq<Arc>, r: int) returns (q: int)
    requires Path(arcs, p, u + v, r)
    ensures Path(arcs, p, u, q) && Path(arcs, q, v, r) && Word(u + v) == Word(u) + Word(v)
    decreases u
  {
    hide Word;
    WordConcat(u, v);
    if u == [] {
      assert u + v == v;
      q := p;
    } else {
      assert (u + v)[1..] == u[1..] + v;
      q := PathSplit(arcs, u[0].dst, u[1..], v, r);
    }
  }

  lemma PathSnoc(arcs: set<Arc>, p: int, u: seq<Arc>, a: Arc)
    requires Path(arcs, p, u, a.src) && a in arcs
    ensures Path(arcs, p, u + [a], a.dst)
    ensures Word(u + [a]) == Word(u) + (if a.letter == EPS then [] else [a.letter])
  {
    assert [a][1..] == [];
    assert Path(arcs, a.src, [a], a.dst);
    PathConcat(arcs, p, u, a.src, [a], a.dst);
    assert Word([a]) == (if a.letter == EPS then [] else [a.letter]) + Word([a][1..]);
  }

  lemma {:induction false} PathStays(m: Net, p: int, u: seq<Arc>, q: int)
    requires Closed(m) && 0 <= p < m.states && Path(m.arcs, p, u, q)
    ensures 0 <= q < m.states
    decreases u
  {
    if u != [] {
      PathStays(m, u[0].dst, u[1..], q);
    }
  }

  // ---- Reachability ----

  ghost predicate Reaches(arcs: set<Arc>, p: int, q: int) {
    exists path :: Path(arcs, p, path, q)
  }

  lemma {:induction false} PathGrows(arcs: set<Arc>, arcs': set<Arc>, p: int, path: seq<Arc>, q: int)
    requires Path(arcs, p, path, q) && arcs <= arcs'
    ensures Path(arcs', p, path, q)
    decreases path
  {
    if path != [] {
      PathGrows(arcs, arcs', path[0].dst, path[1..], q);
    }
  }

  lemma ReachesGrows(arcs: set<Arc>, arcs': set<Arc>, p: int, q: int)
    requires Reaches(arcs, p, q) && arcs <= arcs'
    ensures Reaches(arcs', p, q)
  {
    var path :| Path(arcs, p, path, q);
    PathGrows(arcs, arcs', p, path, q);
  }

  lemma ReachesSnoc(arcs: set<Arc>, p: int, a: Arc)
    requires Reaches(arcs, p, a.src) && a in arcs
    ensures Reaches(arcs, p, a.dst)
  {
    var path :| Path(arcs, p, path, a.src);
    PathSnoc(arcs, p, path, a);
  }

  ghost predicate Reachable(m: Net, q: int) {
    exists s :: s in m.starts && Reaches(m.arcs, s, q)
  }

  ghost predicate Productive(m: Net, q: int) {
    exists f :: f in m.finals && Reaches(m.arcs, q, f)
  }

  ghost predicate Trim(m: Net) {
    forall q :: 0 <= q < m.states ==> Productive(m, q)
  }

  // ---- Deterministic nets ----

  ghost predicate Functional(arcs: set<Arc>) {
    forall a, b :: a in arcs && b in arcs && a.src == b.src && a.letter == b.letter ==> a.dst == b.dst
  }

  ghost predicate EpsilonFree(arcs: set<Arc>) {
    forall a :: a in arcs ==> a.letter != EPS
  }

  // State 0 is the one start state of every foma net.
  ghost predicate Deterministic(m: Net) {
    Closed(m) && Functional(m.arcs) && EpsilonFree(m.arcs) && m.starts == {0}
  }

  // The successor, or -1.
  ghost function Next(arcs: set<Arc>, p: int, l: Letter): (r: int)
    ensures r == -1 || Arc(p, l, r) in arcs
    ensures r == -1 ==> forall q :: q != -1 ==> Arc(p, l, q) !in arcs
  {
    if q :| q != -1 && Arc(p, l, q) in arcs then q else -1
  }

  // What a search for the one arc has come to.
  lemma NextIs(m: Net, q: int, l: Letter, found: bool, target: int)
    requires Deterministic(m)
    requires if found then Arc(q, l, target) in m.arcs else forall r :: Arc(q, l, r) !in m.arcs
    ensures Next(m.arcs, q, l) == (if found then target else -1) && (found ==> 0 <= target < m.states)
  {
  }

  ghost function Run(arcs: set<Arc>, p: int, w: seq<Letter>): int
    decreases w
  {
    if w == [] then p
    else if Next(arcs, p, w[0]) == -1 then -1
    else Run(arcs, Next(arcs, p, w[0]), w[1..])
  }

  ghost predicate AcceptsFrom(m: Net, p: int, w: seq<Letter>) {
    Run(m.arcs, p, w) in m.finals
  }

  lemma {:induction false} RunConcat(arcs: set<Arc>, p: int, u: seq<Letter>, v: seq<Letter>)
    requires forall a :: a in arcs ==> a.src != -1
    ensures Run(arcs, p, u + v) == Run(arcs, Run(arcs, p, u), v)
    decreases u
  {
    if u == [] {
      assert u + v == v;
    } else {
      assert (u + v)[1..] == u[1..] + v;
      if Next(arcs, p, u[0]) == -1 {
        if v != [] {
          assert Next(arcs, -1, v[0]) == -1;
        }
      } else {
        RunConcat(arcs, Next(arcs, p, u[0]), u[1..], v);
      }
    }
  }

  lemma {:induction false} RunStays(m: Net, p: int, w: seq<Letter>)
    requires Closed(m) && 0 <= p < m.states
    ensures Run(m.arcs, p, w) == -1 || 0 <= Run(m.arcs, p, w) < m.states
    decreases w
  {
    if w != [] && Next(m.arcs, p, w[0]) != -1 {
      RunStays(m, Next(m.arcs, p, w[0]), w[1..]);
    }
  }

  // There is no way on from nowhere.
  lemma DeadRun(m: Net, w: seq<Letter>)
    requires Closed(m)
    ensures Run(m.arcs, -1, w) == -1 && !AcceptsFrom(m, -1, w)
  {
    if w != [] {
      assert Next(m.arcs, -1, w[0]) == -1;
    }
  }

  lemma {:induction false} PathIsRun(m: Net, p: int, path: seq<Arc>, q: int)
    requires Deterministic(m) && Path(m.arcs, p, path, q)
    ensures Run(m.arcs, p, Word(path)) == q
    decreases path
  {
    if path != [] {
      var a := path[0];
      PathIsRun(m, a.dst, path[1..], q);
      assert Arc(p, a.letter, a.dst) in m.arcs;
      assert Word(path) == [a.letter] + Word(path[1..]);
    }
  }

  lemma {:induction false} RunIsPath(m: Net, p: int, w: seq<Letter>) returns (path: seq<Arc>)
    requires Deterministic(m) && Run(m.arcs, p, w) != -1
    ensures Path(m.arcs, p, path, Run(m.arcs, p, w)) && Word(path) == w
    decreases w
  {
    if w == [] {
      path := [];
    } else {
      var q := Next(m.arcs, p, w[0]);
      var rest := RunIsPath(m, q, w[1..]);
      path := [Arc(p, w[0], q)] + rest;
      assert path[1..] == rest;
    }
  }

  // For deterministic nets the path language is what running letter by letter accepts.
  lemma AcceptsByRun(m: Net, w: seq<Letter>)
    requires Deterministic(m)
    ensures Accepts(m, w) <==> AcceptsFrom(m, 0, w)
  {
    if Accepts(m, w) {
      var s, f :| s in m.starts && f in m.finals && Spells(m.arcs, s, w, f);
      var path :| Path(m.arcs, s, path, f) && Word(path) == w;
      PathIsRun(m, s, path, f);
    }
    if AcceptsFrom(m, 0, w) {
      var path := RunIsPath(m, 0, w);
      assert Spells(m.arcs, 0, w, Run(m.arcs, 0, w));
    }
  }
}
