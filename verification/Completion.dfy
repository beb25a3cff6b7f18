// What fsm_complete and fsm_complement (constructions.c) mean for
// deterministic nets over one tape with the symbols 2..last.

module Completion {
  import opened Nets
  import opened Options
  import opened Alphabets

  predicate InSigma(l: Letter, last: int) {
    l.inp == l.outp && IDENTITY <= l.inp <= last
  }

  ghost predicate SingleTape(m: Net, last: int) {
    forall a :: a in m.arcs ==> InSigma(a.letter, last)
  }

  // Every state goes on with every symbol.
  ghost predicate Total(k: Net, last: int) {
    forall q, l :: 0 <= q < k.states && InSigma(l, last) ==> Next(k.arcs, q, l) != -1
  }

  ghost predicate Over(w: seq<Letter>, last: int) {
    forall i :: 0 <= i < |w| ==> InSigma(w[i], last)
  }

  // Nothing leaves the sink, and it is not final.
  ghost predicate IsSink(m: Net, sink: int) {
    && 0 <= sink <= m.states && sink !in m.finals
    && (sink < m.states ==> forall a :: a in m.arcs && a.src == sink ==> a.dst == sink)
  }

  ghost function Goes(m: Net, q: int, l: Letter, sink: int): int {
    if q == sink || Next(m.arcs, q, l) == -1 then sink else Next(m.arcs, q, l)
  }

  // k is m with all missing arcs led to the sink, and the final states
  // exchanged for a complement.
  ghost predicate IsCompletion(m: Net, k: Net, last: int, sink: int, complement: bool) {
    && Deterministic(m) && Deterministic(k) && SingleTape(m, last) && SingleTape(k, last) && IsSink(m, sink)
    && k.states == (if sink == m.states then m.states + 1 else m.states)
    && (forall q, l :: 0 <= q < k.states && InSigma(l, last) ==> Next(k.arcs, q, l) == Goes(m, q, l, sink))
    && (forall q :: 0 <= q < k.states ==> (q in k.finals <==> (q in m.finals) != complement))
  }

  // Where k is, given where m is.
  ghost function Place(p: int, sink: int): int {
    if p == -1 then sink else p
  }

  lemma CompletionStep(m: Net, k: Net, last: int, sink: int, complement: bool, p: int, l: Letter)
    requires IsCompletion(m, k, last, sink, complement) && InSigma(l, last) && (p == -1 || 0 <= p < m.states)
    ensures Next(k.arcs, Place(p, sink), l) == Place(if p == -1 then -1 else Next(m.arcs, p, l), sink) != -1
    ensures p != -1 ==> Next(m.arcs, p, l) == -1 || 0 <= Next(m.arcs, p, l) < m.states
  {
    var q := Place(p, sink);
    assert Next(k.arcs, q, l) == Goes(m, q, l, sink);
    if p != -1 && Next(m.arcs, p, l) != -1 {
      assert Arc(p, l, Next(m.arcs, p, l)) in m.arcs;
    }
  }

  lemma {:induction false} CompletionRun(m: Net, k: Net, last: int, sink: int, complement: bool, p: int, w: seq<Letter>)
    requires IsCompletion(m, k, last, sink, complement) && Over(w, last) && (p == -1 || 0 <= p < m.states)
    ensures Run(k.arcs, Place(p, sink), w) == Place(Run(m.arcs, p, w), sink)
    ensures Run(m.arcs, p, w) == -1 || 0 <= Run(m.arcs, p, w) < m.states
    decreases w
  {
    if w != [] {
      CompletionStep(m, k, last, sink, complement, p, w[0]);
      NoWayOn(m, w[0]);
      var next := if p == -1 then -1 else Next(m.arcs, p, w[0]);
      CompletionRun(m, k, last, sink, complement, next, w[1..]);
      DeadRun(m, w[1..]);
    }
  }

  lemma NoWayOn(m: Net, l: Letter)
    requires Closed(m)
    ensures Next(m.arcs, -1, l) == -1
  {
  }

  // Words with other symbols are not accepted.
  lemma {:induction false} OnlyOver(m: Net, last: int, p: int, w: seq<Letter>)
    requires SingleTape(m, last) && Closed(m) && Run(m.arcs, p, w) != -1
    ensures Over(w, last)
    decreases w
  {
    if w != [] {
      assert Next(m.arcs, p, w[0]) != -1;
      assert Arc(p, w[0], Next(m.arcs, p, w[0])) in m.arcs;
      OnlyOver(m, last, Next(m.arcs, p, w[0]), w[1..]);
      assert forall i :: 0 < i < |w| ==> w[i] == w[1..][i - 1];
    }
  }

  // What completion and complement are for.
  ghost predicate Completes(m: Net, k: Net, last: int, complement: bool) {
    && Deterministic(k) && SingleTape(k, last) && Total(k, last)
    && (forall w :: Accepts(k, w) <==> if complement then Over(w, last) && !Accepts(m, w) else Accepts(m, w))
  }

  lemma CompletionLanguage(m: Net, k: Net, last: int, sink: int, complement: bool)
    requires IsCompletion(m, k, last, sink, complement)
    ensures Completes(m, k, last, complement)
  {
    forall q, l | 0 <= q < k.states && InSigma(l, last) ensures Next(k.arcs, q, l) != -1 {
      CompletionStep(m, k, last, sink, complement, if q == m.states then -1 else q, l);
    }
    forall w ensures Accepts(k, w) <==> if complement then Over(w, last) && !Accepts(m, w) else Accepts(m, w) {
      AcceptsByRun(m, w);
      AcceptsByRun(k, w);
      if Over(w, last) {
        StartState(m);
        CompletionRun(m, k, last, sink, complement, 0, w);
        Verdict(m, k, last, sink, complement, Run(m.arcs, 0, w));
      } else {
        Rejected(m, last, w);
        Rejected(k, last, w);
      }
    }
  }

  lemma StartState(m: Net)
    requires Deterministic(m)
    ensures 0 < m.states
  {
    assert 0 in m.starts;
  }

  lemma Rejected(m: Net, last: int, w: seq<Letter>)
    requires SingleTape(m, last) && Closed(m) && !Over(w, last)
    ensures !AcceptsFrom(m, 0, w)
  {
    if Run(m.arcs, 0, w) != -1 {
      OnlyOver(m, last, 0, w);
    }
  }

  lemma Verdict(m: Net, k: Net, last: int, sink: int, complement: bool, p: int)
    requires IsCompletion(m, k, last, sink, complement) && (p == -1 || 0 <= p < m.states)
    ensures Place(p, sink) in k.finals <==> (p in m.finals) != complement
  {
    hide Goes;
  }

  // A net that is complete already only exchanges its final states.
  ghost predicate IsExchange(m: Net, k: Net, complement: bool) {
    && k.states == m.states && k.arcs == m.arcs && k.starts == m.starts && Closed(k)
    && (forall q :: 0 <= q < m.states ==> (q in k.finals <==> (q in m.finals) != complement))
  }

  lemma ExchangeLanguage(m: Net, k: Net, last: int, complement: bool)
    requires Deterministic(m) && SingleTape(m, last) && Total(m, last) && IsExchange(m, k, complement)
    ensures Completes(m, k, last, complement)
  {
    forall w ensures Accepts(k, w) <==> if complement then Over(w, last) && !Accepts(m, w) else Accepts(m, w) {
      AcceptsByRun(m, w);
      AcceptsByRun(k, w);
      StartState(m);
      if Over(w, last) {
        TotalRun(m, last, 0, w);
      } else {
        Rejected(m, last, w);
        Rejected(k, last, w);
      }
    }
  }

  lemma {:induction false} TotalRun(m: Net, last: int, p: int, w: seq<Letter>)
    requires Closed(m) && Total(m, last) && Over(w, last) && 0 <= p < m.states
    ensures 0 <= Run(m.arcs, p, w) < m.states
    decreases w
  {
    if w != [] {
      assert Arc(p, w[0], Next(m.arcs, p, w[0])) in m.arcs;
      TotalRun(m, last, Next(m.arcs, p, w[0]), w[1..]);
    }
  }

  // ---- Counting arcs ----

  // All pairs of a state and a symbol.
  ghost function Row(q: int, last: int): (r: set<(int, int)>)
    ensures forall p :: p in r <==> p.0 == q && IDENTITY <= p.1 <= last
    ensures |r| == if last < IDENTITY then 0 else last - 1
    decreases last
  {
    if last < IDENTITY then {} else Row(q, last - 1) + {(q, last)}
  }

  ghost function Rows(n: nat, last: int): (r: set<(int, int)>)
    requires last >= IDENTITY
    ensures forall p :: p in r <==> 0 <= p.0 < n && IDENTITY <= p.1 <= last
    ensures |r| == n * (last - 1)
    decreases n
  {
    if n == 0 then {} else
      var less, row := Rows(n - 1, last), Row(n - 1, last);
      assert less !! row;
      assert n * (last - 1) == (n - 1) * (last - 1) + (last - 1);
      less + row
  }

  ghost function Places(arcs: set<Arc>): set<(int, int)> {
    set a | a in arcs :: (a.src, a.letter.inp)
  }

  lemma {:induction false} PlacesSize(arcs: set<Arc>, last: int)
    requires Functional(arcs) && forall a :: a in arcs ==> InSigma(a.letter, last)
    ensures |Places(arcs)| == |arcs|
    decreases |arcs|
  {
    if arcs == {} {
      assert Places(arcs) == {};
    } else {
      var a :| a in arcs;
      var rest := arcs - {a};
      PlacesSize(rest, last);
      assert Places(arcs) == Places(rest) + {(a.src, a.letter.inp)};
      forall b | b in rest ensures (b.src, b.letter.inp) != (a.src, a.letter.inp) {
        assert InSigma(a.letter, last) && InSigma(b.letter, last);
      }
    }
  }

  // As many arcs as there are states times symbols: nothing is missing.
  lemma CountedTotal(m: Net, last: int)
    requires Deterministic(m) && SingleTape(m, last) && last >= IDENTITY && |m.arcs| == m.states * (last - 1)
    ensures Total(m, last)
  {
    var rows := Rows(m.states, last);
    var size := m.states * (last - 1);
    assert |rows| == size;
    PlacesSize(m.arcs, last);
    AllPlaced(m, last, rows);
  }

  lemma AllPlaced(m: Net, last: int, rows: set<(int, int)>)
    requires Deterministic(m) && SingleTape(m, last) && |Places(m.arcs)| == |rows|
    requires forall p :: p in rows <==> 0 <= p.0 < m.states && IDENTITY <= p.1 <= last
    ensures Total(m, last)
  {
    forall p | p in Places(m.arcs) ensures p in rows {
      var a :| a in m.arcs && p == (a.src, a.letter.inp);
      assert InSigma(a.letter, last);
    }
    SameSize(Places(m.arcs), rows);
    forall q, l | 0 <= q < m.states && InSigma(l, last) ensures Next(m.arcs, q, l) != -1 {
      assert (q, l.inp) in rows;
      var a :| a in m.arcs && (q, l.inp) == (a.src, a.letter.inp);
      assert InSigma(a.letter, last) && a == Arc(q, l, a.dst) && a.dst != -1;
    }
  }

  lemma SameSize<T>(a: set<T>, b: set<T>)
    requires a <= b && |a| == |b|
    ensures a == b
  {
    assert b == a + (b - a);
    assert |b| == |a| + |b - a|;
  }

  // ---- The open alphabet ----

  // The string on both tapes.
  function Twice(u: seq<string>): seq<Pair> {
    seq(|u|, i requires 0 <= i < |u| => Pair(Some(u[i]), Some(u[i])))
  }

  // The complement accepts the strings that the net rejects, over any symbols
  // whatever; completion changes nothing.
  lemma OpenLanguage(m: Net, k: Net, s: seq<Sym>, last: int, complement: bool, u: seq<string>)
    requires Deterministic(m) && SingleTape(m, last) && Completes(m, k, last, complement)
    requires SigmaOK(s) && last >= IDENTITY && forall i :: 0 <= i < |s| ==> s[i].number <= last
    ensures OpenAccepts(k, s, Twice(u)) <==> OpenAccepts(m, s, Twice(u)) != complement
  {
    OpenIsCoded(m, s, Twice(u));
    OpenIsCoded(k, s, Twice(u));
    var w := Coded(s, Twice(u));
    forall i | 0 <= i < |u| ensures InSigma(w[i], last) {
      assert Stands(s, w[i].inp, Some(u[i]));
    }
  }
}
