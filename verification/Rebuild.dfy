// rebuild_machine (minimize.c): the quotient table, written over the old one.

module Rebuild {
  import opened Nets
  import opened Counting
  import opened Nerode
  import opened Blocks
  import opened Splitters
  import opened Refine

  function RebuiltLine(l: Line, num: seq<int>): Line
    requires LineOK(l, |num|)
  {
    Line(num[l.state], l.inp, l.outp, if l.target == -1 then -1 else num[l.target], l.final, l.start)
  }

  // The lines of the representatives, renumbered.
  function Rebuilt(t: seq<Line>, k: nat, rep: seq<bool>, num: seq<int>): (r: seq<Line>)
    requires k <= |t| && |rep| == |num| && forall i :: 0 <= i < |t| ==> LineOK(t[i], |num|)
    ensures |r| <= k
  {
    if k == 0 then []
    else
      assert LineOK(t[k - 1], |num|);
      Rebuilt(t, k - 1, rep, num) + (if rep[t[k - 1].state] then [RebuiltLine(t[k - 1], num)] else [])
  }

  // num numbers the classes 0..k-1 with state 0 in class 0; every class has
  // exactly one representative; equal numbers mean equal behaviour.
  ghost predicate QuotientMap(m: Net, rep: seq<bool>, num: seq<int>, k: nat) {
    && |rep| == |num| == m.states && 0 < m.states && AllBelow(num, k) && num[0] == 0 && rep[0]
    && (forall c :: 0 <= c < k ==> HasRep(rep, num, c))
    && (forall p, q :: 0 <= p < m.states && 0 <= q < m.states && rep[p] && rep[q] && num[p] == num[q] ==> p == q)
    && FinalsAgree(m, num)
    && (forall p, q, l :: 0 <= p < m.states && 0 <= q < m.states && num[p] == num[q] ==> SameStep(m, num, p, q, l))
  }

  ghost predicate HasRep(rep: seq<bool>, num: seq<int>, c: int)
    requires |rep| == |num|
  {
    exists p :: 0 <= p < |rep| && rep[p] && num[p] == c
  }

  ghost predicate SameStep(m: Net, num: seq<int>, p: int, q: int, l: Letter) {
    var s, t := Next(m.arcs, p, l), Next(m.arcs, q, l);
    (s == -1 && t == -1) || (0 <= s < |num| && 0 <= t < |num| && num[s] == num[t])
  }

  ghost predicate IsRebuilt(t: seq<Line>, rep: seq<bool>, num: seq<int>, l: Line)
    requires |rep| == |num| && forall i :: 0 <= i < |t| ==> LineOK(t[i], |num|)
  {
    exists i :: 0 <= i < |t| && LineOK(t[i], |num|) && rep[t[i].state] && l == RebuiltLine(t[i], num)
  }

  lemma {:induction false} RebuiltLines(t: seq<Line>, k: nat, rep: seq<bool>, num: seq<int>)
    requires k <= |t| && |rep| == |num| && forall i :: 0 <= i < |t| ==> LineOK(t[i], |num|)
    ensures forall l :: l in Rebuilt(t, k, rep, num) ==> IsRebuilt(t, rep, num, l)
    ensures forall i :: 0 <= i < k && LineOK(t[i], |num|) && rep[t[i].state] ==>
                          RebuiltLine(t[i], num) in Rebuilt(t, k, rep, num)
    decreases k
  {
    if k > 0 {
      RebuiltLines(t, k - 1, rep, num);
      assert LineOK(t[k - 1], |num|);
      var tail := if rep[t[k - 1].state] then [RebuiltLine(t[k - 1], num)] else [];
      var r := Rebuilt(t, k - 1, rep, num) + tail;
      forall l | l in r ensures IsRebuilt(t, rep, num, l) {
        assert l in Rebuilt(t, k - 1, rep, num) || l in tail;
      }
      if rep[t[k - 1].state] {
        assert r[|r| - 1] == RebuiltLine(t[k - 1], num);
      }
    }
  }

  lemma RebuiltArc(t: seq<Line>, n: nat, rep: seq<bool>, num: seq<int>, a: Arc) returns (s: int, d: int)
    requires IsTable(t, n) && |rep| == |num| == n && AllBelow(num, |t| + n)
    requires a in ArcsOf(Rebuilt(t, |t|, rep, num))
    ensures 0 <= s < n && 0 <= d < n && rep[s] && a == Arc(num[s], a.letter, num[d]) && Arc(s, a.letter, d) in ArcsOf(t)
  {
    var r := Rebuilt(t, |t|, rep, num);
    RebuiltLines(t, |t|, rep, num);
    var i :| 0 <= i < |r| && r[i].target != -1 && LineArc(r[i]) == a;
    assert IsRebuilt(t, rep, num, r[i]);
    var j :| 0 <= j < |t| && rep[t[j].state] && r[i] == RebuiltLine(t[j], num);
    assert LineOK(t[j], n);
    s, d := t[j].state, t[j].target;
    assert LineArc(t[j]) in ArcsOf(t);
  }

  lemma ArcRebuilt(t: seq<Line>, n: nat, rep: seq<bool>, num: seq<int>, a: Arc)
    requires IsTable(t, n) && |rep| == |num| == n && AllBelow(num, |t| + n)
    requires a in ArcsOf(t) && 0 <= a.src < n && 0 <= a.dst < n && rep[a.src]
    ensures Arc(num[a.src], a.letter, num[a.dst]) in ArcsOf(Rebuilt(t, |t|, rep, num))
  {
    RebuiltLines(t, |t|, rep, num);
    var i :| 0 <= i < |t| && t[i].target != -1 && LineArc(t[i]) == a;
    var r := Rebuilt(t, |t|, rep, num);
    assert RebuiltLine(t[i], num) in r;
    var j :| 0 <= j < |r| && r[j] == RebuiltLine(t[i], num);
    assert r[j].target != -1 && LineArc(r[j]) == Arc(num[a.src], a.letter, num[a.dst]);
  }

  // The quotient table is a table, deterministic, and its graph is the quotient.
  lemma RebuiltIsTable(t: seq<Line>, n: nat, rep: seq<bool>, num: seq<int>, k: nat)
    requires IsTable(t, n) && Deterministic(Meaning(t, n)) && QuotientMap(Meaning(t, n), rep, num, k) && k <= n
    ensures IsTable(Rebuilt(t, |t|, rep, num), k)
  {
    var r := Rebuilt(t, |t|, rep, num);
    RebuiltLines(t, |t|, rep, num);
    forall i | 0 <= i < |r| ensures LineOK(r[i], k) {
      assert IsRebuilt(t, rep, num, r[i]);
      var j :| 0 <= j < |t| && LineOK(t[j], n) && rep[t[j].state] && r[i] == RebuiltLine(t[j], num);
    }
    forall c | 0 <= c < k ensures HasLine(r, c) {
      assert HasRep(rep, num, c);
      var p :| 0 <= p < n && rep[p] && num[p] == c;
      assert HasLine(t, p);
      var j :| 0 <= j < |t| && t[j].state == p;
      assert LineOK(t[j], n);
      assert RebuiltLine(t[j], num) in r;
      var i :| 0 <= i < |r| && r[i] == RebuiltLine(t[j], num);
    }
    forall i, j | 0 <= i < |r| && 0 <= j < |r| && r[i].state == r[j].state
      ensures r[i].final == r[j].final && r[i].start == r[j].start
    {
      SameRep(t, n, rep, num, k, r[i], r[j]);
    }
  }

  lemma SameRep(t: seq<Line>, n: nat, rep: seq<bool>, num: seq<int>, k: nat, x: Line, y: Line)
    requires IsTable(t, n) && QuotientMap(Meaning(t, n), rep, num, k)
    requires IsRebuilt(t, rep, num, x) && IsRebuilt(t, rep, num, y) && x.state == y.state
    ensures x.final == y.final && x.start == y.start
  {
    var a :| 0 <= a < |t| && LineOK(t[a], n) && rep[t[a].state] && x == RebuiltLine(t[a], num);
    var b :| 0 <= b < |t| && LineOK(t[b], n) && rep[t[b].state] && y == RebuiltLine(t[b], num);
    assert t[a].state == t[b].state;
  }

  lemma RebuiltFlags(t: seq<Line>, n: nat, rep: seq<bool>, num: seq<int>, k: nat, p: int)
    requires IsTable(t, n) && Deterministic(Meaning(t, n)) && QuotientMap(Meaning(t, n), rep, num, k)
    requires 0 <= p < n && rep[p]
    ensures num[p] in FinalsOf(Rebuilt(t, |t|, rep, num)) <==> p in FinalsOf(t)
    ensures num[p] in StartsOf(Rebuilt(t, |t|, rep, num)) <==> p in StartsOf(t)
  {
    var r := Rebuilt(t, |t|, rep, num);
    RebuiltLines(t, |t|, rep, num);
    if num[p] in FinalsOf(r) {
      var i :| 0 <= i < |r| && r[i].final && r[i].state == num[p];
      assert IsRebuilt(t, rep, num, r[i]);
    }
    if num[p] in StartsOf(r) {
      var i :| 0 <= i < |r| && r[i].start && r[i].state == num[p];
      assert IsRebuilt(t, rep, num, r[i]);
    }
    assert HasLine(t, p);
    var j :| 0 <= j < |t| && t[j].state == p;
    assert LineOK(t[j], n);
    assert RebuiltLine(t[j], num) in r;
    var i :| 0 <= i < |r| && r[i] == RebuiltLine(t[j], num);
    assert p in FinalsOf(t) ==> t[j].final;
    assert p in StartsOf(t) ==> t[j].start;
  }

  lemma RepOf(m: Net, rep: seq<bool>, num: seq<int>, k: nat, p: int) returns (r: int)
    requires QuotientMap(m, rep, num, k) && 0 <= p < m.states
    ensures 0 <= r < m.states && rep[r] && num[r] == num[p]
  {
    assert HasRep(rep, num, num[p]);
    r :| 0 <= r < m.states && rep[r] && num[r] == num[p];
  }

  lemma RebuiltFunctional(t: seq<Line>, n: nat, rep: seq<bool>, num: seq<int>, k: nat)
    requires IsTable(t, n) && Deterministic(Meaning(t, n)) && QuotientMap(Meaning(t, n), rep, num, k) && k <= n
    ensures Functional(ArcsOf(Rebuilt(t, |t|, rep, num))) && EpsilonFree(ArcsOf(Rebuilt(t, |t|, rep, num)))
  {
    var arcs := ArcsOf(Rebuilt(t, |t|, rep, num));
    forall a, b | a in arcs && b in arcs && a.src == b.src && a.letter == b.letter ensures a.dst == b.dst {
      var s, d := RebuiltArc(t, n, rep, num, a);
      var s', d' := RebuiltArc(t, n, rep, num, b);
    }
    forall a | a in arcs ensures a.letter != EPS {
      var s, d := RebuiltArc(t, n, rep, num, a);
    }
  }

  lemma RebuiltNext(t: seq<Line>, n: nat, rep: seq<bool>, num: seq<int>, k: nat, p: int, l: Letter)
    requires IsTable(t, n) && Deterministic(Meaning(t, n)) && QuotientMap(Meaning(t, n), rep, num, k) && k <= n
    requires 0 <= p < n
    ensures NextAgrees(Meaning(t, n), Meaning(Rebuilt(t, |t|, rep, num), k), num, p, l)
  {
    var arcs, arcs' := ArcsOf(t), ArcsOf(Rebuilt(t, |t|, rep, num));
    var r := RepOf(Meaning(t, n), rep, num, k, p);
    assert SameStep(Meaning(t, n), num, p, r, l);
    RebuiltFunctional(t, n, rep, num, k);
    var d, d' := Next(arcs, r, l), Next(arcs', num[p], l);
    if d != -1 {
      ArcRebuilt(t, n, rep, num, Arc(r, l, d));
      assert Arc(num[p], l, num[d]) in arcs';
    } else if d' != -1 {
      var s, e := RebuiltArc(t, n, rep, num, Arc(num[p], l, d'));
    }
  }

  lemma RebuiltQuotient(t: seq<Line>, n: nat, rep: seq<bool>, num: seq<int>, k: nat)
    requires IsTable(t, n) && Deterministic(Meaning(t, n)) && QuotientMap(Meaning(t, n), rep, num, k) && k <= n
    ensures Deterministic(Meaning(Rebuilt(t, |t|, rep, num), k))
    ensures IsQuotient(Meaning(t, n), Meaning(Rebuilt(t, |t|, rep, num), k), num)
  {
    hide Functional, EpsilonFree, NextAgrees, SameStep, HasRep;
    var m, k' := Meaning(t, n), Meaning(Rebuilt(t, |t|, rep, num), k);
    RebuiltIsTable(t, n, rep, num, k);
    TableIsClosed(Rebuilt(t, |t|, rep, num), k);
    RebuiltFunctional(t, n, rep, num, k);
    forall p, l | 0 <= p < n ensures NextAgrees(m, k', num, p, l) {
      RebuiltNext(t, n, rep, num, k, p, l);
    }
    forall p | 0 <= p < n ensures p in m.finals <==> num[p] in k'.finals {
      var r := RepOf(m, rep, num, k, p);
      RebuiltFlags(t, n, rep, num, k, r);
    }
    forall c | 0 <= c < k ensures c in num && (c in k'.starts <==> c == 0) {
      RepExists(rep, num, k, c, m);
      var p :| 0 <= p < n && rep[p] && num[p] == c;
      RebuiltFlags(t, n, rep, num, k, p);
    }
    assert forall c :: c in k'.starts ==> 0 <= c < k;
    assert k'.starts == {0};
  }

  lemma RepExists(rep: seq<bool>, num: seq<int>, k: nat, c: int, m: Net)
    requires QuotientMap(m, rep, num, k) && 0 <= c < k
    ensures exists p :: 0 <= p < |rep| && rep[p] && num[p] == c
  {
    assert HasRep(rep, num, c);
  }

  // Trimness and reachability survive the quotient.
  lemma {:induction false} QuotientPath(m: Net, k: Net, num: seq<int>, p: int, path: seq<Arc>, q: int)
    requires Deterministic(m) && Deterministic(k) && IsQuotient(m, k, num) && 0 <= p < m.states
    requires Path(m.arcs, p, path, q)
    ensures 0 <= q < m.states && Reaches(k.arcs, num[p], num[q])
    decreases path
  {
    if path == [] {
      assert Path(k.arcs, num[p], [], num[q]);
    } else {
      var a := path[0];
      QuotientPath(m, k, num, a.dst, path[1..], q);
      assert NextAgrees(m, k, num, p, a.letter);
      assert Arc(p, a.letter, a.dst) in m.arcs && Next(m.arcs, p, a.letter) == a.dst;
      var rest :| Path(k.arcs, num[a.dst], rest, num[q]);
      var step := Arc(num[p], a.letter, num[a.dst]);
      assert step in k.arcs;
      assert ([step] + rest)[1..] == rest;
      assert Path(k.arcs, num[p], [step] + rest, num[q]);
    }
  }

  lemma QuotientTrim(m: Net, k: Net, num: seq<int>)
    requires Deterministic(m) && Deterministic(k) && IsQuotient(m, k, num)
    ensures Trim(m) ==> Trim(k)
    ensures AllReachable(m) ==> AllReachable(k)
  {
    forall c | 0 <= c < k.states
      ensures Trim(m) ==> Productive(k, c)
      ensures AllReachable(m) ==> Reachable(k, c)
    {
      assert c in num;
      var p :| 0 <= p < m.states && num[p] == c;
      if Trim(m) {
        assert Productive(m, p);
        var f :| f in m.finals && Reaches(m.arcs, p, f);
        var path :| Path(m.arcs, p, path, f);
        QuotientPath(m, k, num, p, path, f);
        assert num[f] in k.finals;
      }
      if AllReachable(m) {
        assert Reachable(m, p);
        var path :| Path(m.arcs, 0, path, p);
        QuotientPath(m, k, num, 0, path, p);
        assert 0 in k.starts;
      }
    }
  }

  // ---- The numbering of the classes ----

  // first names one state of every class, state 0 for its own class.
  ghost predicate Firsts(E: seq<Elem>, P: seq<Block>) {
    && |E| > 0 && (forall s :: 0 <= s < |E| ==> 0 <= E[s].group < |P|)
    && P[E[0].group].first == 0
    && forall s :: 0 <= s < |E| ==> 0 <= P[E[s].group].first < |E| && E[P[E[s].group].first].group == E[s].group
  }

  ghost function Reps(E: seq<Elem>, P: seq<Block>): seq<bool>
    requires Firsts(E, P)
  {
    seq(|E|, s requires 0 <= s < |E| => P[E[s].group].first == s)
  }

  ghost function Numbers(E: seq<Elem>, P: seq<Block>): seq<int>
    requires Firsts(E, P)
  {
    seq(|E|, s requires 0 <= s < |E| => P[E[s].group].tCount)
  }

  // order lists the classes numbered so far, that of state 0 first.
  ghost predicate Numbered(E: seq<Elem>, P: seq<Block>, order: seq<int>) {
    && |E| > 0 && (forall s :: 0 <= s < |E| ==> 0 <= E[s].group < |P|)
    && order != [] && order[0] == E[0].group && NoDup(order) && AllBelow(order, |P|)
    && (forall b :: b in order ==> b in Groups(E))
    && (forall k :: 0 <= k < |order| ==> P[order[k]].tCount == k)
    && (forall k :: 1 <= k < |order| ==> P[order[k]].count == 1)
    && (forall s :: 0 <= s < |E| && E[s].group !in order ==> P[E[s].group].count == 0)
  }

  lemma NumberNext(E: seq<Elem>, P: seq<Block>, order: seq<int>, g: int, P': seq<Block>)
    requires Numbered(E, P, order) && g in Groups(E) && g !in order
    requires P' == P[g := P[g].(tCount := |order|, count := 1)]
    ensures Numbered(E, P', order + [g])
  {
    var x :| 0 <= x < |E| && Groups(E)[x] == g;
    var order' := order + [g];
    assert forall k :: 0 <= k < |order'| ==> order'[k] == if k < |order| then order[k] else g;
    forall s | 0 <= s < |E| && E[s].group !in order' ensures P'[E[s].group].count == 0 {
      assert E[s].group !in order && E[s].group != g by {
        assert order'[|order|] == g;
        assert forall b :: b in order ==> b in order';
      }
    }
  }

  // All classes are numbered: the map is a quotient map.
  lemma NumberedMap(m: Net, E: seq<Elem>, P: seq<Block>, order: seq<int>, cls: seq<int>)
    requires Numbered(E, P, order) && Firsts(E, P) && cls == Groups(E) && |E| == m.states
    requires forall s :: 0 <= s < |E| ==> E[s].group in order
    requires FinalsAgree(m, cls)
    requires forall p, q, l :: 0 <= p < |E| && 0 <= q < |E| && cls[p] == cls[q] ==> SameStep(m, cls, p, q, l)
    ensures |order| == |Elements(cls)|
    ensures QuotientMap(m, Reps(E, P), Numbers(E, P), |order|)
  {
    hide FinalsAgree, SameStep, Numbered, HasRep;
    var rep, num := Reps(E, P), Numbers(E, P);
    ClassesListed(E, P, order);
    forall s | 0 <= s < |E| ensures 0 <= num[s] < |order| && order[num[s]] == cls[s] {
      NumberOfClass(E, P, order, s);
    }
    forall p, q | 0 <= p < |E| && 0 <= q < |E| ensures num[p] == num[q] <==> cls[p] == cls[q] {
    }
    forall c | 0 <= c < |order| ensures HasRep(rep, num, c) {
      ClassHasRep(E, P, order, c);
    }
    SameNumbers(m, order, cls, num);
    FirstNumbered(E, P, order);
  }

  lemma ClassesListed(E: seq<Elem>, P: seq<Block>, order: seq<int>)
    requires Numbered(E, P, order) && forall s :: 0 <= s < |E| ==> E[s].group in order
    ensures |order| == |Elements(Groups(E))|
  {
    var cls := Groups(E);
    NoDupSize(order);
    forall b ensures b in Elements(order) <==> b in Elements(cls) {
      if b in cls {
        var x :| 0 <= x < |cls| && cls[x] == b;
        assert E[x].group in order;
      }
    }
    assert Elements(order) == Elements(cls);
  }

  lemma NumberOfClass(E: seq<Elem>, P: seq<Block>, order: seq<int>, s: int)
    requires Numbered(E, P, order) && Firsts(E, P) && 0 <= s < |E| && E[s].group in order
    ensures 0 <= Numbers(E, P)[s] < |order| && order[Numbers(E, P)[s]] == E[s].group
  {
    var k :| 0 <= k < |order| && order[k] == E[s].group;
  }

  lemma ClassHasRep(E: seq<Elem>, P: seq<Block>, order: seq<int>, c: int)
    requires Numbered(E, P, order) && Firsts(E, P) && 0 <= c < |order|
    ensures HasRep(Reps(E, P), Numbers(E, P), c)
  {
    assert order[c] in Groups(E);
    var x :| 0 <= x < |E| && Groups(E)[x] == order[c];
    var r := P[E[x].group].first;
    assert Reps(E, P)[r] && Numbers(E, P)[r] == c;
  }

  lemma FirstNumbered(E: seq<Elem>, P: seq<Block>, order: seq<int>)
    requires Numbered(E, P, order) && Firsts(E, P)
    ensures Numbers(E, P)[0] == 0 && Reps(E, P)[0]
  {
    assert P[order[0]].tCount == 0;
  }

  // Numbers agree where classes do.
  lemma SameNumbers(m: Net, order: seq<int>, cls: seq<int>, num: seq<int>)
    requires |cls| == |num| == m.states && FinalsAgree(m, cls)
    requires forall s :: 0 <= s < |num| ==> 0 <= num[s] < |order| && order[num[s]] == cls[s]
    requires forall p, q :: 0 <= p < |num| && 0 <= q < |num| ==> (num[p] == num[q] <==> cls[p] == cls[q])
    requires forall p, q, l :: 0 <= p < |num| && 0 <= q < |num| && cls[p] == cls[q] ==> SameStep(m, cls, p, q, l)
    ensures FinalsAgree(m, num)
    ensures forall p, q, l :: 0 <= p < |num| && 0 <= q < |num| && num[p] == num[q] ==> SameStep(m, num, p, q, l)
  {
    forall p, q, l | 0 <= p < |num| && 0 <= q < |num| && num[p] == num[q] ensures SameStep(m, num, p, q, l) {
      assert SameStep(m, cls, p, q, l);
    }
  }

  // ---- The method ----

  // State 0 becomes the first state of its class, and the counters of all
  // classes are cleared for reuse.
  method ClearCounts(p: Partition)
    requires p.Linked() && p.Settled() && p.n > 0
    modifies p.P
    ensures Firsts(p.E[..], p.P[..]) && Numbered(p.E[..], p.P[..], [p.E[0].group])
  {
    hide LinkOK, AgendaOK, InvOK, ChainOK, InChain, CountOK;
    ghost var e := p.E[..];
    var g := p.E[0].group;
    FirstsOfLists(e, p.P[..], p.lists);
    ZeroNumber(p, g);
    if p.P[g].first != 0 {
      p.P[g] := p.P[g].(first := 0);
    }
    ghost var p1 := p.P[..];
    ChainFrame(old(p.P[..]), p.head, p.chain, p.pNext, p1);
    ClearChain(p, e);
    StartNumbering(e, p1, p.P[..], g);
  }

  // The counters of the blocks in the chain, one after the other.
  method ClearChain(p: Partition, ghost e: seq<Elem>)
    requires ChainOK(p.P[..], p.head, p.chain, p.pNext) && InChain(e, p.chain)
    modifies p.P
    ensures forall c :: 0 <= c < p.P.Length ==> p.P[c] == old(p.P[c]).(count := p.P[c].count)
    ensures forall s :: 0 <= s < |e| ==> 0 <= e[s].group < p.P.Length && p.P[e[s].group].count == 0
  {
    hide ChainOK, InChain;
    ghost var chain := p.chain;
    ChainFacts(p.P[..], p.head, chain, p.pNext);
    var b := p.head;
    ghost var k := 0;
    while b != NULL
      invariant k <= |chain| && b == (if k < |chain| then chain[k] else NULL)
      invariant forall c :: 0 <= c < p.P.Length ==> p.P[c] == old(p.P[c]).(count := p.P[c].count)
      invariant forall i :: 0 <= i < k ==> p.P[chain[i]].count == 0
      decreases |chain| - k
    {
      p.P[b] := p.P[b].(count := 0);
      b := p.P[b].next;
      k := k + 1;
    }
    forall s | 0 <= s < |e| ensures 0 <= e[s].group < p.P.Length && p.P[e[s].group].count == 0 {
      InChainAt(e, chain, s);
      var i :| 0 <= i < |chain| && chain[i] == e[s].group;
    }
  }

  lemma StartNumbering(e: seq<Elem>, p1: seq<Block>, p2: seq<Block>, g: int)
    requires |e| > 0 && e[0].group == g && |p1| == |p2| && 0 <= g < |p1| && p1[g].first == 0 && p1[g].tCount == 0
    requires forall s :: 0 <= s < |e| ==> 0 <= e[s].group < |p1|
    requires forall s :: 0 <= s < |e| ==>
               0 <= p1[e[s].group].first < |e| && e[p1[e[s].group].first].group == e[s].group
    requires forall c :: 0 <= c < |p1| ==> p2[c] == p1[c].(count := p2[c].count)
    requires forall s :: 0 <= s < |e| ==> p2[e[s].group].count == 0
    ensures Firsts(e, p2) && Numbered(e, p2, [g])
  {
    assert Groups(e)[0] == g;
  }

  lemma ZeroNumber(p: Partition, g: int)
    requires p.Settled() && 0 <= g < p.pNext
    ensures p.P[g].tCount == 0
  {
    assert Quiet(p.P[g]);
  }

  lemma InChainAt(E: seq<Elem>, chain: seq<int>, s: int)
    requires InChain(E, chain) && 0 <= s < |E|
    ensures E[s].group in chain
  {
  }

  lemma ChainFacts(P: seq<Block>, head: int, chain: seq<int>, blocks: nat)
    requires ChainOK(P, head, chain, blocks)
    ensures AllBelow(chain, blocks) && chain != [] && head == chain[0] && blocks <= |P|
    ensures forall k :: 0 <= k < |chain| ==> P[chain[k]].next == if k + 1 < |chain| then chain[k + 1] else NULL
  {
    forall k | 0 <= k < |chain| ensures P[chain[k]].next == if k + 1 < |chain| then chain[k + 1] else NULL {
      if k + 1 < |chain| {
        assert P[chain[k]].next == chain[k + 1];
      }
    }
  }

  lemma FirstsOfLists(E: seq<Elem>, P: seq<Block>, lists: seq<seq<int>>)
    requires LinkOK(E, P, lists)
    ensures |lists| <= |P|
    ensures forall s :: 0 <= s < |E| ==>
      0 <= E[s].group < |lists| && 0 <= P[E[s].group].first < |E| && E[P[E[s].group].first].group == E[s].group
  {
    forall s | 0 <= s < |E|
      ensures 0 <= E[s].group < |lists| && 0 <= P[E[s].group].first < |E| && E[P[E[s].group].first].group == E[s].group
    {
      assert ListOK(E, P, lists[E[s].group], E[s].group);
      assert s in lists[E[s].group];
    }
  }

  lemma NumberedAt(E: seq<Elem>, P: seq<Block>, order: seq<int>, s: int)
    requires Numbered(E, P, order) && Firsts(E, P) && 0 <= s < |E| && P[E[s].group].first == s
    ensures E[s].group in Groups(E)
    ensures E[s].group !in order ==> P[E[s].group].count == 0
    ensures E[s].group in order ==> s == 0 || P[E[s].group].count == 1
  {
    assert Groups(E)[s] == E[s].group;
    if E[s].group in order && s != 0 {
      var k :| 0 <= k < |order| && order[k] == E[s].group;
      assert k != 0;
    }
  }

  lemma StartLine(t: seq<Line>, n: nat, i: nat)
    requires IsTable(t, n) && StartsOf(t) == {0} && i < |t|
    ensures t[i].start <==> t[i].state == 0
  {
    if t[i].start {
      assert t[i].state in StartsOf(t);
    }
    if t[i].state == 0 {
      assert 0 in StartsOf(t);
      var j :| 0 <= j < |t| && t[j].start && t[j].state == 0;
    }
  }

  lemma StartAgain(E: seq<Elem>, P: seq<Block>, order: seq<int>, P': seq<Block>)
    requires Numbered(E, P, order)
    requires var g := E[0].group; P' == P[g := P[g].(tCount := 0, count := 1)]
    ensures Numbered(E, P', order)
  {
  }

  ghost function Kept(t: seq<Line>, k: nat, rep: seq<bool>): nat
    requires k <= |t|
  {
    if k == 0 then 0
    else Kept(t, k - 1, rep) + (if 0 <= t[k - 1].state < |rep| && rep[t[k - 1].state] then 1 else 0)
  }

  lemma {:induction false} KeptRebuilt(t: seq<Line>, k: nat, rep: seq<bool>, num: seq<int>)
    requires k <= |t| && |rep| == |num| && forall i :: 0 <= i < |t| ==> LineOK(t[i], |num|)
    ensures |Rebuilt(t, k, rep, num)| == Kept(t, k, rep)
    decreases k
  {
    if k > 0 {
      KeptRebuilt(t, k - 1, rep, num);
      assert LineOK(t[k - 1], |num|);
    }
  }

  // One line of the first pass: the class of a first state gets its number.
  method NumberLine(p: Partition, s: int, start: bool, groupNum: nat, ghost order: seq<int>)
    returns (groupNum': nat, ghost order': seq<int>)
    requires p.E.Length == p.n > 0 && Firsts(p.E[..], p.P[..]) && Numbered(p.E[..], p.P[..], order)
    requires 0 <= s < p.n && p.P[p.E[s].group].first == s && (start <==> s == 0) && groupNum == |order|
    modifies p.P
    ensures Firsts(p.E[..], p.P[..]) && Numbered(p.E[..], p.P[..], order') && groupNum' == |order'|
    ensures forall b :: 0 <= b < p.P.Length ==> p.P[b].first == old(p.P[b].first)
    ensures Reps(p.E[..], p.P[..]) == old(Reps(p.E[..], p.P[..]))
    ensures p.E[s].group in order' && forall b :: b in order ==> b in order'
  {
    hide Numbered;
    ghost var e, p0 := p.E[..], p.P[..];
    var g := p.E[s].group;
    NumberedAt(e, p0, order, s);
    groupNum', order' := groupNum, order;
    if start {
      p.P[g] := p.P[g].(tCount := 0, count := 1);
      StartAgain(e, p0, order, p.P[..]);
      StartNumbered(e, p0, order);
    } else if p.P[g].count == 0 {
      p.P[g] := p.P[g].(tCount := groupNum', count := 1);
      NumberNext(e, p0, order, g, p.P[..]);
      groupNum' := groupNum' + 1;
      order' := order + [g];
      assert order'[|order|] == g;
    }
  }

  lemma StartNumbered(E: seq<Elem>, P: seq<Block>, order: seq<int>)
    requires Numbered(E, P, order)
    ensures E[0].group in order
  {
  }

  method NumberClasses(p: Partition, fsm: array<Line>, ghost t: seq<Line>) returns (lines: nat, ghost order: seq<int>)
    requires p.E.Length == p.n > 0 && Firsts(p.E[..], p.P[..]) && Numbered(p.E[..], p.P[..], [p.E[0].group])
    requires IsTable(t, p.n) && fsm.Length > |t| && fsm[..|t|] == t && fsm[|t|].state == -1
    requires StartsOf(t) == {0}
    modifies p.P
    ensures Firsts(p.E[..], p.P[..]) && Numbered(p.E[..], p.P[..], order)
    ensures forall s :: 0 <= s < p.n ==> p.E[s].group in order
    ensures forall b :: 0 <= b < p.P.Length ==> p.P[b].first == old(p.P[b].first)
    ensures lines == |Rebuilt(t, |t|, Reps(p.E[..], p.P[..]), Numbers(p.E[..], p.P[..]))|
  {
    hide Numbered, IsTable, Rebuilt, SeenUpTo, Firsts, Reps;
    var groupNum := 1;
    lines := 0;
    order := [p.E[0].group];
    ghost var e, rep := p.E[..], Reps(p.E[..], p.P[..]);
    RepAt(e, p.P[..], 0);
    SeenNone(e, t, rep, order);
    var i := 0;
    while fsm[i].state != -1
      invariant i <= |t| && groupNum == |order| && forall k :: 0 <= k < |t| ==> fsm[k] == t[k]
      invariant Firsts(e, p.P[..]) && Numbered(e, p.P[..], order) && Reps(e, p.P[..]) == rep
      invariant forall b :: 0 <= b < p.P.Length ==> p.P[b].first == old(p.P[b].first)
      invariant SeenUpTo(e, t, i, rep, order) && lines == Kept(t, i, rep)
      decreases |t| - i
    {
      TableLine(t, p.n, i);
      var s := fsm[i].state;
      ghost var before := order;
      RepAt(e, p.P[..], s);
      if p.P[p.E[s].group].first == s {
        lines := lines + 1;
        StartLine(t, p.n, i);
        groupNum, order := NumberLine(p, s, fsm[i].start, groupNum, order);
      }
      SeenNext(e, t, i, rep, before, order);
      i := i + 1;
    }
    TableLine(t, p.n, i);
    RepsNumbered(e, p.P[..], t, order, rep);
    TableLines(t, p.n);
    KeptRebuilt(t, |t|, rep, Numbers(e, p.P[..]));
  }

  lemma RepAt(E: seq<Elem>, P: seq<Block>, s: int)
    requires Firsts(E, P) && 0 <= s < |E|
    ensures 0 <= E[s].group < |P| && |Reps(E, P)| == |E| && (Reps(E, P)[s] <==> P[E[s].group].first == s)
  {
  }

  // The classes of the first states among the first i lines are in order.
  ghost predicate SeenUpTo(E: seq<Elem>, t: seq<Line>, i: nat, rep: seq<bool>, order: seq<int>) {
    && |rep| == |E| && i <= |t|
    && forall j :: 0 <= j < i && 0 <= t[j].state < |E| && rep[t[j].state] ==> E[t[j].state].group in order
  }

  lemma SeenNone(E: seq<Elem>, t: seq<Line>, rep: seq<bool>, order: seq<int>)
    requires |rep| == |E|
    ensures SeenUpTo(E, t, 0, rep, order)
  {
  }

  lemma SeenNext(E: seq<Elem>, t: seq<Line>, i: nat, rep: seq<bool>, order: seq<int>, order': seq<int>)
    requires SeenUpTo(E, t, i, rep, order) && i < |t| && forall b :: b in order ==> b in order'
    requires 0 <= t[i].state < |E| && (rep[t[i].state] ==> E[t[i].state].group in order')
    ensures SeenUpTo(E, t, i + 1, rep, order')
  {
  }

  lemma RepsNumbered(E: seq<Elem>, P: seq<Block>, t: seq<Line>, order: seq<int>, rep: seq<bool>)
    requires Firsts(E, P) && rep == Reps(E, P) && IsTable(t, |E|)
    requires SeenUpTo(E, t, |t|, rep, order)
    ensures forall s :: 0 <= s < |E| ==> E[s].group in order
  {
    forall s | 0 <= s < |E| ensures E[s].group in order {
      var f := P[E[s].group].first;
      assert HasLine(t, f);
      var j :| 0 <= j < |t| && t[j].state == f;
      assert rep[f];
    }
  }

  // The final flags of all lines.
  ghost predicate FinalsOn(t: seq<Line>, finals: seq<bool>) {
    forall i :: 0 <= i < |t| ==> 0 <= t[i].state < |finals| && finals[t[i].state] == t[i].final
  }

  // The lines of the first states of the classes, compacted in place.
  method Compact(p: Partition, fsm: array<Line>, finals: seq<bool>, ghost t: seq<Line>) returns (j: nat)
    requires p.E.Length == p.n == |finals| > 0 && Firsts(p.E[..], p.P[..])
    requires IsTable(t, p.n) && fsm.Length > |t| && fsm[..|t|] == t && fsm[|t|].state == -1
    requires FinalsOn(t, finals)
    modifies fsm
    ensures j < fsm.Length && fsm[j] == SENTINEL
    ensures fsm[..j] == Rebuilt(t, |t|, Reps(p.E[..], p.P[..]), Numbers(p.E[..], p.P[..]))
  {
    TableLines(t, p.n);
    hide IsTable, Firsts, Rebuilt, RebuiltLine, Reps, Numbers, LineOK, FinalsOn;
    ghost var E, P := p.E[..], p.P[..];
    ghost var rep, num := Reps(E, P), Numbers(E, P);
    RebuiltNone(t, rep, num);
    ghost var table := fsm[..];
    var i := 0;
    j := 0;
    while fsm[i].state != -1
      invariant j <= i <= |t| && fsm[..j] == Rebuilt(t, i, rep, num)
      invariant fsm[i..] == table[i..] && p.E[..] == E && p.P[..] == P
      decreases |t| - i
    {
      assert fsm[i] == fsm[i..][0] == table[i];
      assert fsm[i + 1..] == fsm[i..][1..] == table[i + 1..];
      j := CompactLine(p, fsm, finals, i, j, t);
      i := i + 1;
    }
    EndOfTable(t, p.n, i, fsm[i].state);
    EndTable(fsm, j);
  }

  method EndTable(fsm: array<Line>, j: nat)
    requires j < fsm.Length
    modifies fsm
    ensures fsm[j] == SENTINEL && fsm[..j] == old(fsm[..j])
  {
    ghost var kept := fsm[..j];
    fsm[j] := SENTINEL;
    assert fsm[..j] == kept;
  }

  // Line i, if its state stands for its class, is written at j.
  method CompactLine(p: Partition, fsm: array<Line>, finals: seq<bool>, i: nat, j: nat, ghost t: seq<Line>)
    returns (j': nat)
    requires p.E.Length == p.n == |finals| && Firsts(p.E[..], p.P[..])
    requires j <= i < |t| && i < fsm.Length && fsm[i] == t[i] && (forall k :: 0 <= k < |t| ==> LineOK(t[k], p.n))
    requires FinalsOn(t, finals)
    requires fsm[..j] == Rebuilt(t, i, Reps(p.E[..], p.P[..]), Numbers(p.E[..], p.P[..]))
    modifies fsm
    ensures j <= j' <= i + 1 && fsm[..j'] == Rebuilt(t, i + 1, Reps(p.E[..], p.P[..]), Numbers(p.E[..], p.P[..]))
    ensures fsm[i + 1..] == old(fsm[i + 1..]) && p.E[..] == old(p.E[..]) && p.P[..] == old(p.P[..])
  {
    assert LineOK(t[i], p.n);
    LineIs(p.E[..], p.P[..], finals, t, p.n, i);
    hide Firsts, Rebuilt, RebuiltLine, Reps, Numbers;
    j' := j;
    var l := fsm[i];
    var g := p.E[l.state].group;
    if p.P[g].first == l.state {
      ghost var kept := fsm[..j];
      var target := if l.target == -1 then -1 else p.P[p.E[l.target].group].tCount;
      fsm[j] := Line(p.P[g].tCount, l.inp, l.outp, target, finals[l.state], l.start);
      assert fsm[..j + 1] == kept + [fsm[j]];
      j' := j + 1;
    }
  }

  lemma RebuiltNone(t: seq<Line>, rep: seq<bool>, num: seq<int>)
    requires |rep| == |num| && forall i :: 0 <= i < |t| ==> LineOK(t[i], |num|)
    ensures Rebuilt(t, 0, rep, num) == []
  {
  }

  // What becomes of line i.
  lemma LineIs(E: seq<Elem>, P: seq<Block>, finals: seq<bool>, t: seq<Line>, n: nat, i: nat)
    requires Firsts(E, P) && |E| == n == |finals| && i < |t| && forall k :: 0 <= k < |t| ==> LineOK(t[k], n)
    requires 0 <= t[i].state < n && finals[t[i].state] == t[i].final
    ensures var rep, num, s := Reps(E, P), Numbers(E, P), t[i].state;
            && 0 <= s < n && 0 <= E[s].group < |P| && (t[i].target != -1 ==>
                 0 <= t[i].target < n && 0 <= E[t[i].target].group < |P|)
            && Rebuilt(t, i + 1, rep, num) == Rebuilt(t, i, rep, num) +
                 (if P[E[s].group].first != s then []
                  else [Line(P[E[s].group].tCount, t[i].inp, t[i].outp,
                             if t[i].target == -1 then -1 else P[E[t[i].target].group].tCount, finals[s], t[i].start)])
  {
    assert LineOK(t[i], n);
  }
}
