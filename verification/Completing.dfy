// fsm_completes (constructions.c), behind fsm_complete and fsm_complement: one
// pass exchanges the final states in place, and a full table of successors
// gives the completed net.

module Completing {
  import opened Nets
  import opened Pointers
  import opened Order
  import opened Completion
  import Builder

  function Flipped(l: Line, complement: bool): Line {
    l.(final := l.final != complement)
  }

  // What the first pass knows after i lines.
  ghost predicate Noted(t: seq<Line>, i: nat, complement: bool, starts: seq<bool>, finals: seq<bool>,
                        sinks: seq<bool>) {
    && i <= |t| && |starts| == |finals| == |sinks|
    && (forall k :: 0 <= k < i ==> 0 <= t[k].state < |starts| && starts[t[k].state] == t[k].start
                                   && finals[t[k].state] == (t[k].final != complement))
    && (forall q :: 0 <= q < |sinks| ==> (sinks[q] <==> forall k :: 0 <= k < i && t[k].state == q ==> Stays(t[k])))
  }

  // A line that does not keep its state from being a sink.
  predicate Stays(l: Line) {
    !l.final && (l.target == -1 || l.target == l.state)
  }

  lemma NoteLine(t: seq<Line>, n: nat, i: nat, complement: bool, starts: seq<bool>, finals: seq<bool>, sinks: seq<bool>)
    requires IsTable(t, n) && i < |t| && Noted(t, i, complement, starts, finals, sinks) && |starts| > n
    ensures var s := t[i].state;
            0 <= s < n &&
            Noted(t, i + 1, complement, starts[s := t[i].start], finals[s := t[i].final != complement],
                  sinks[s := sinks[s] && Stays(t[i])])
  {
    assert LineOK(t[i], n);
    NoteFlags(t, n, i, complement, starts, finals);
    NoteSink(t, i, sinks);
  }

  lemma NoteFlags(t: seq<Line>, n: nat, i: nat, complement: bool, starts: seq<bool>, finals: seq<bool>)
    requires IsTable(t, n) && i < |t| && |starts| == |finals| > n && 0 <= t[i].state < n
    requires forall k :: 0 <= k < i ==> 0 <= t[k].state < |starts| && starts[t[k].state] == t[k].start
                                        && finals[t[k].state] == (t[k].final != complement)
    ensures var starts', finals' := starts[t[i].state := t[i].start], finals[t[i].state := t[i].final != complement];
            forall k :: 0 <= k < i + 1 ==> 0 <= t[k].state < |starts| && starts'[t[k].state] == t[k].start
                                           && finals'[t[k].state] == (t[k].final != complement)
  {
  }

  lemma NoteSink(t: seq<Line>, i: nat, sinks: seq<bool>)
    requires i < |t| && 0 <= t[i].state < |sinks|
    requires forall q :: 0 <= q < |sinks| ==> (sinks[q] <==> forall k :: 0 <= k < i && t[k].state == q ==> Stays(t[k]))
    ensures var sinks' := sinks[t[i].state := sinks[t[i].state] && Stays(t[i])];
            forall q :: 0 <= q < |sinks| ==> (sinks'[q] <==> forall k :: 0 <= k < i + 1 && t[k].state == q ==>
                                                                           Stays(t[k]))
  {
    hide Stays;
    var sinks' := sinks[t[i].state := sinks[t[i].state] && Stays(t[i])];
    forall q | 0 <= q < |sinks'| ensures sinks'[q] <==> forall k :: 0 <= k < i + 1 && t[k].state == q ==> Stays(t[k]) {
      assert sinks[q] <==> forall k :: 0 <= k < i && t[k].state == q ==> Stays(t[k]);
    }
  }

  lemma CountArc(t: seq<Line>, i: nat)
    requires i < |t| && DistinctLines(t)
    ensures |ArcsOf(t[..i + 1])| == |ArcsOf(t[..i])| + (if t[i].target != -1 then 1 else 0)
  {
    var less := t[..i];
    assert t[..i + 1] == less + [t[i]];
    Builder.ArcsSnoc(less, t[i]);
    forall a | a in ArcsOf(less) && t[i].target != -1 ensures a != LineArc(t[i]) {
      var k :| 0 <= k < |less| && less[k].target != -1 && LineArc(less[k]) == a;
      assert t[k] == less[k];
    }
  }

  // The first pass: final states are exchanged for a complement, arcs counted,
  // and states noted; there is room for one more state.
  method FirstPass(fsm: array<Line>, n: nat, complement: bool, ghost t: seq<Line>)
    returns (arccount: nat, starts: seq<bool>, finals: seq<bool>, sinks: seq<bool>, lines: nat)
    requires IsTable(t, n) && DistinctLines(t) && fsm.Length > |t| && fsm[..|t|] == t && fsm[|t|].state == -1
    modifies fsm
    ensures lines == |t| && fsm[|t|].state == -1 && fsm[..|t|] ==
              seq(|t|, k requires 0 <= k < |t| => Flipped(t[k], complement))
    ensures arccount == |ArcsOf(t)| && |starts| == |finals| == |sinks| == n + 1
            && Noted(t, |t|, complement, starts, finals, sinks)
  {
    hide IsTable, DistinctLines, Noted, ArcsOf;
    TableLines(t, n);
    arccount := 0;
    starts, finals, sinks := seq(n + 1, _ => false), seq(n + 1, _ => false), seq(n + 1, _ => true);
    NothingNoted(t, complement, starts, finals, sinks);
    var i := 0;
    while fsm[i].state != -1
      invariant i <= |t| && fsm[|t|].state == -1
      invariant forall k :: 0 <= k < |t| ==> fsm[k] == if k < i then Flipped(t[k], complement) else t[k]
      invariant arccount == |ArcsOf(t[..i])| && |starts| == |finals| == |sinks| == n + 1
                && Noted(t, i, complement, starts, finals, sinks)
      decreases |t| - i
    {
      assert fsm[i] == t[i];
      NoteLine(t, n, i, complement, starts, finals, sinks);
      CountArc(t, i);
      if complement {
        fsm[i] := fsm[i].(final := !fsm[i].final);
      }
      var l := fsm[i];
      assert l == Flipped(t[i], complement);
      if l.target != -1 {
        arccount := arccount + 1;
      }
      starts := starts[l.state := l.start];
      finals := finals[l.state := l.final];
      ghost var before := sinks;
      if l.final && !complement {
        sinks := sinks[l.state := false];
      }
      if !l.final && complement {
        sinks := sinks[l.state := false];
      }
      if l.target != -1 && l.state != l.target {
        sinks := sinks[l.state := false];
      }
      assert sinks == before[l.state := before[l.state] && Stays(t[i])];
      i := i + 1;
    }
    assert i == |t| && t[..|t|] == t;
    lines := i;
  }

  lemma NothingNoted(t: seq<Line>, complement: bool, starts: seq<bool>, finals: seq<bool>, sinks: seq<bool>)
    requires |starts| == |finals| == |sinks| && forall q :: 0 <= q < |sinks| ==> sinks[q]
    ensures Noted(t, 0, complement, starts, finals, sinks) && |ArcsOf(t[..0])| == 0
  {
    assert ArcsOf(t[..0]) == {};
  }

  // What was noted, in terms of the net.
  lemma NotedStates(t: seq<Line>, n: nat, complement: bool, starts: seq<bool>, finals: seq<bool>, sinks: seq<bool>)
    requires IsTable(t, n) && Noted(t, |t|, complement, starts, finals, sinks) && |starts| == n + 1
    ensures forall q :: 0 <= q < n ==> (starts[q] <==> q in StartsOf(t))
                                       && (finals[q] <==> (q in FinalsOf(t)) != complement)
    ensures forall q :: 0 <= q < n && sinks[q] ==> IsSink(Meaning(t, n), q)
    ensures IsSink(Meaning(t, n), n)
  {
    var m := Meaning(t, n);
    TableIsClosed(t, n);
    forall q | 0 <= q < n
      ensures (starts[q] <==> q in StartsOf(t)) && (finals[q] <==> (q in FinalsOf(t)) != complement)
      ensures sinks[q] ==> IsSink(m, q) {
      assert HasLine(t, q);
      var k :| 0 <= k < |t| && t[k].state == q;
      assert q in StartsOf(t) <==> t[k].start;
      assert q in FinalsOf(t) <==> t[k].final;
      if sinks[q] {
        assert Stays(t[k]);
        forall a | a in m.arcs && a.src == q ensures a.dst == q {
          var i :| 0 <= i < |t| && t[i].target != -1 && LineArc(t[i]) == a;
          assert Stays(t[i]);
        }
      }
    }
  }

  // An existing sink, or the new state n.
  method FindSink(sinks: seq<bool>, n: nat, ghost m: Net) returns (sink: nat)
    requires |sinks| > n == m.states && IsSink(m, n) && forall q :: 0 <= q < n && sinks[q] ==> IsSink(m, q)
    ensures sink <= n && IsSink(m, sink)
  {
    for i := 0 to n {
      if sinks[i] {
        return i;
      }
    }
    sink := n;
  }

  // The table of all successors, with the sink where there is none.
  method Successors(fsm: array<Line>, n: nat, last: nat, states: nat, sink: nat, ghost t: seq<Line>)
    returns (table: array2<int>)
    requires IsTable(t, n) && Deterministic(Meaning(t, n)) && SingleTape(Meaning(t, n), last) && last >= IDENTITY
    requires fsm.Length > |t| && fsm[|t|].state == -1 && n <= states && sink < states
    requires forall k :: 0 <= k < |t| ==> fsm[k].state == t[k].state && fsm[k].inp == t[k].inp
                                          && fsm[k].target == t[k].target
    ensures fresh(table) && table.Length0 == states && table.Length1 == last + 1
    ensures forall q, s :: 0 <= q < states && IDENTITY <= s <= last ==>
                             table[q, s] == Goes(Meaning(t, n), q, Letter(s, s), sink)
  {
    table := FillTable(fsm, n, last, states, t);
    ghost var m := Meaning(t, n);
    hide NoArc, Deterministic, SingleTape, IsTable;
    for j := IDENTITY to last + 1
      invariant forall q, s :: 0 <= q < states && IDENTITY <= s <= last && q != sink ==> Cell(m, q, s, table[q, s])
      invariant forall s :: IDENTITY <= s < j ==> table[sink, s] == sink
    {
      table[sink, j] := sink;
    }
    for i := 0 to states
      invariant forall q, s :: 0 <= q < i && IDENTITY <= s <= last ==> table[q, s] == Goes(m, q, Letter(s, s), sink)
      invariant forall s :: IDENTITY <= s <= last ==> table[sink, s] == sink
      invariant forall q, s :: i <= q < states && IDENTITY <= s <= last && q != sink ==> Cell(m, q, s, table[q, s])
    {
      FillRow(table, m, i, last, sink);
    }
  }

  // What FillTable leaves for a state and a symbol.
  ghost predicate Cell(m: Net, q: int, s: int, target: int) {
    if target == -1 then NoArc(m, q, s) else Arc(q, Letter(s, s), target) in m.arcs
  }

  method FillRow(table: array2<int>, ghost m: Net, i: nat, last: nat, sink: nat)
    requires table.Length1 == last + 1 && i < table.Length0 && Deterministic(m)
    requires i == sink ==> forall s :: IDENTITY <= s <= last ==> table[i, s] == sink
    requires i != sink ==> forall s :: IDENTITY <= s <= last ==> Cell(m, i, s, table[i, s])
    modifies table
    ensures forall s :: IDENTITY <= s <= last ==> table[i, s] == Goes(m, i, Letter(s, s), sink)
    ensures forall q, s :: 0 <= q < table.Length0 && q != i && 0 <= s <= last ==> table[q, s] == old(table[q, s])
  {
    hide NoArc, Deterministic;
    if last < IDENTITY {
      return;
    }
    for j := IDENTITY to last + 1
      invariant forall s :: IDENTITY <= s < j ==> table[i, s] == Goes(m, i, Letter(s, s), sink)
      invariant forall s :: j <= s <= last ==> table[i, s] == old(table[i, s])
      invariant forall q, s :: 0 <= q < table.Length0 && q != i && 0 <= s <= last ==> table[q, s] == old(table[q, s])
    {
      GoesIs(m, i, j, sink, table[i, j]);
      if table[i, j] == -1 {
        table[i, j] := sink;
      }
    }
  }

  ghost predicate NoArc(m: Net, q: int, s: int) {
    forall a :: a in m.arcs ==> !(a.src == q && a.letter == Letter(s, s))
  }

  lemma GoesIs(m: Net, q: int, s: int, sink: int, target: int)
    requires Deterministic(m)
    requires q != sink ==> if target == -1 then NoArc(m, q, s) else Arc(q, Letter(s, s), target) in m.arcs
    ensures Goes(m, q, Letter(s, s), sink) == if q == sink || target == -1 then sink else target
  {
  }

  method FillTable(fsm: array<Line>, n: nat, last: nat, states: nat, ghost t: seq<Line>) returns (table: array2<int>)
    requires IsTable(t, n) && Deterministic(Meaning(t, n)) && SingleTape(Meaning(t, n), last)
    requires fsm.Length > |t| && fsm[|t|].state == -1 && n <= states
    requires forall k :: 0 <= k < |t| ==> fsm[k].state == t[k].state && fsm[k].inp == t[k].inp
                                          && fsm[k].target == t[k].target
    ensures fresh(table) && table.Length0 == states && table.Length1 == last + 1
    ensures forall q, s :: 0 <= q < states && IDENTITY <= s <= last ==>
              if table[q, s] == -1 then NoArc(Meaning(t, n), q, s) else Arc(q, Letter(s, s), table[q, s]) in ArcsOf(t)
  {
    hide IsTable, Deterministic, SingleTape;
    table := new int[states, last + 1]((_, _) => -1);
    var i := 0;
    while fsm[i].state != -1
      invariant i <= |t|
      invariant forall q, s :: 0 <= q < states && 0 <= s <= last && table[q, s] != -1 ==>
                                 Arc(q, Letter(s, s), table[q, s]) in ArcsOf(t)
      invariant forall k :: 0 <= k < i && t[k].target != -1 ==> 0 <= t[k].state < states && 0 <= t[k].inp <= last
                                                                && table[t[k].state, t[k].inp] != -1
      decreases |t| - i
    {
      if fsm[i].target != -1 {
        LineInSigma(t, n, last, i);
        table[fsm[i].state, fsm[i].inp] := fsm[i].target;
      }
      i := i + 1;
    }
    EndOfTable(t, n, i, fsm[i].state);
    forall q, s | 0 <= q < states && IDENTITY <= s <= last && table[q, s] == -1 ensures NoArc(Meaning(t, n), q, s) {
      forall a | a in ArcsOf(t) ensures !(a.src == q && a.letter == Letter(s, s)) {
        var k :| 0 <= k < |t| && t[k].target != -1 && LineArc(t[k]) == a;
      }
    }
  }

  lemma LineInSigma(t: seq<Line>, n: nat, last: int, i: nat)
    requires IsTable(t, n) && SingleTape(Meaning(t, n), last) && i < |t| && t[i].target != -1
    ensures LineOK(t[i], n) && InSigma(Letter(t[i].inp, t[i].outp), last) && LineArc(t[i]) in ArcsOf(t)
  {
    assert LineArc(t[i]) in Meaning(t, n).arcs;
  }

  // ---- Writing the new table ----

  // The line of state q for symbol s.
  ghost predicate IsEntry(l: Line, m: Net, sink: int, last: int, finals: seq<bool>, starts: seq<bool>) {
    && 0 <= l.state < |finals| == |starts| && IDENTITY <= l.inp == l.outp <= last
    && l.target == Goes(m, l.state, Letter(l.inp, l.inp), sink) && l.final == finals[l.state]
       && l.start == starts[l.state]
  }

  ghost predicate Before(a: Line, b: Line) {
    a.state < b.state || (a.state == b.state && a.inp < b.inp)
  }

  // Everything before state i, and of i the symbols below j.
  ghost predicate Filled(u: seq<Line>, m: Net, sink: int, last: int, finals: seq<bool>, starts: seq<bool>, i: int,
                         j: int) {
    && (forall k :: 0 <= k < |u| ==> IsEntry(u[k], m, sink, last, finals, starts)
                                     && (u[k].state < i || (u[k].state == i && u[k].inp < j)))
    && (forall a, b :: 0 <= a < b < |u| ==> Before(u[a], u[b]))
    && (forall q, s :: 0 <= q <= i && IDENTITY <= s <= last && (q == i ==> s < j) ==> HasEntry(u, q, s))
  }

  ghost predicate HasEntry(u: seq<Line>, q: int, s: int) {
    exists k :: 0 <= k < |u| && u[k].state == q && u[k].inp == s
  }

  lemma FilledNext(u: seq<Line>, m: Net, sink: int, last: int, finals: seq<bool>, starts: seq<bool>, i: int, j: int,
                   l: Line)
    requires Filled(u, m, sink, last, finals, starts, i, j) && IsEntry(l, m, sink, last, finals, starts) && l.state == i
             && l.inp == j
    ensures Filled(u + [l], m, sink, last, finals, starts, i, j + 1)
  {
    hide IsEntry;
    var v := u + [l];
    assert v[|u|] == l && forall k :: 0 <= k < |u| ==> v[k] == u[k];
    forall q, s | 0 <= q <= i && IDENTITY <= s <= last && (q == i ==> s < j + 1) ensures HasEntry(v, q, s) {
      if !(q == i && s == j) {
        assert HasEntry(u, q, s);
        var k :| 0 <= k < |u| && u[k].state == q && u[k].inp == s;
        assert v[k].state == q;
      }
    }
    forall a, b | 0 <= a < b < |v| ensures Before(v[a], v[b]) {
    }
  }

  lemma NextState(u: seq<Line>, m: Net, sink: int, last: int, finals: seq<bool>, starts: seq<bool>, i: int)
    requires Filled(u, m, sink, last, finals, starts, i, last + 1)
    ensures Filled(u, m, sink, last, finals, starts, i + 1, IDENTITY)
  {
    hide IsEntry, Before;
  }

  lemma NothingFilled(m: Net, sink: int, last: int, finals: seq<bool>, starts: seq<bool>)
    ensures Filled([], m, sink, last, finals, starts, 0, IDENTITY)
  {
  }

  // states * (last - 1) lines, and one for the sentinel.
  lemma RoomLeft(states: nat, width: nat, i: nat, j: nat, size: nat)
    requires i < states && j < width && size == states * (width + 2)
    ensures i * width + j < size && (i + 1) * width == i * width + width
  {
    assert (i + 1) * width <= states * width;
    assert states * (width + 2) == states * width + 2 * states;
  }

  method WriteTable(table: array2<int>, states: nat, last: nat, finals: seq<bool>, starts: seq<bool>, ghost m: Net,
                    ghost sink: int)
    returns (out: array<Line>, lines: nat)
    requires last >= IDENTITY && table.Length0 == states && table.Length1 == last + 1 && |finals| == |starts| == states
    requires forall q, s :: 0 <= q < states && IDENTITY <= s <= last ==> table[q, s] == Goes(m, q, Letter(s, s), sink)
    ensures fresh(out) && lines < out.Length && out[lines] == SENTINEL
    ensures Filled(out[..lines], m, sink, last, finals, starts, states, IDENTITY)
  {
    hide Filled, Goes;
    var width := last - 1;
    var size := states * (last + 1);
    out := new Line[size + 1](_ => SENTINEL);
    var offset := 0;
    NothingFilled(m, sink, last, finals, starts);
    for i := 0 to states
      invariant out.Length == size + 1 && offset == i * width && offset <= size
      invariant Filled(out[..offset], m, sink, last, finals, starts, i, IDENTITY)
    {
      for j := IDENTITY to last + 1
        invariant out.Length == size + 1 && offset == i * width + (j - IDENTITY) && offset <= size
        invariant Filled(out[..offset], m, sink, last, finals, starts, i, j)
      {
        RoomLeft(states, width, i, j - IDENTITY, size);
        ghost var u := out[..offset];
        out[offset] := Line(i, j, j, table[i, j], finals[i], starts[i]);
        FilledNext(u, m, sink, last, finals, starts, i, j, out[offset]);
        assert out[..offset + 1] == u + [out[offset]];
        offset := offset + 1;
      }
      RoomLeft(states, width, i, 0, size);
      NextState(out[..offset], m, sink, last, finals, starts, i);
    }
    ghost var u := out[..offset];
    out[offset] := SENTINEL;
    assert out[..offset] == u;
    lines := offset;
  }

  lemma EntryAt(u: seq<Line>, m: Net, sink: int, last: int, finals: seq<bool>, starts: seq<bool>, i: int, j: int,
                k: nat)
    requires Filled(u, m, sink, last, finals, starts, i, j) && k < |u|
    ensures IsEntry(u[k], m, sink, last, finals, starts)
  {
  }

  lemma GoesBounds(m: Net, q: int, l: Letter, sink: int)
    requires Closed(m) && 0 <= sink <= m.states
    ensures 0 <= Goes(m, q, l, sink) && (Goes(m, q, l, sink) < m.states || Goes(m, q, l, sink) == sink)
  {
  }

  lemma FilledLines(u: seq<Line>, m: Net, sink: int, last: int, finals: seq<bool>, starts: seq<bool>, states: nat)
    requires Filled(u, m, sink, last, finals, starts, states, IDENTITY) && |finals| == |starts| == states
    requires Closed(m) && 0 <= sink < states && sink <= m.states <= states
    ensures forall k :: 0 <= k < |u| ==> LineOK(u[k], states) && u[k].target != -1
    ensures forall k :: 0 <= k < |u| ==> u[k].final == finals[u[k].state] && u[k].start == starts[u[k].state]
  {
    hide Goes;
    forall k | 0 <= k < |u| ensures LineOK(u[k], states) && u[k].target != -1 && u[k].final == finals[u[k].state]
        && u[k].start == starts[u[k].state] {
      EntryAt(u, m, sink, last, finals, starts, states, IDENTITY, k);
      GoesBounds(m, u[k].state, Letter(u[k].inp, u[k].inp), sink);
    }
  }

  lemma InOrderLines(u: seq<Line>)
    requires (forall a, b :: 0 <= a < b < |u| ==> Before(u[a], u[b])) && forall k :: 0 <= k < |u| ==> u[k].target != -1
    ensures Grouped(u) && LoneFlags(u) && Ascending(u) && DistinctLines(u)
  {
    forall i, j, k | 0 <= i < j < k < |u| && u[i].state == u[k].state ensures u[j].state == u[i].state {
      assert Before(u[i], u[j]) && Before(u[j], u[k]);
    }
    forall i, j | 0 <= i < j < |u| ensures u[i].state <= u[j].state && LineArc(u[i]) != LineArc(u[j]) {
      assert Before(u[i], u[j]);
    }
  }

  // The new table is a net.
  lemma FilledNet(u: seq<Line>, m: Net, sink: int, last: int, finals: seq<bool>, starts: seq<bool>, states: nat)
    requires Filled(u, m, sink, last, finals, starts, states, IDENTITY) && |finals| == |starts| == states > 0
             && last >= IDENTITY
    requires Closed(m) && 0 <= sink < states && sink <= m.states <= states
    ensures IsNet(u, states) && Ascending(u) && DistinctLines(u)
  {
    hide IsEntry, Before;
    FilledLines(u, m, sink, last, finals, starts, states);
    forall q | 0 <= q < states ensures HasLine(u, q) {
      assert HasEntry(u, q, IDENTITY);
      var k :| 0 <= k < |u| && u[k].state == q && u[k].inp == IDENTITY;
    }
    InOrderLines(u);
  }

  lemma FilledArc(u: seq<Line>, m: Net, sink: int, last: int, finals: seq<bool>, starts: seq<bool>, states: nat, a: Arc)
    requires Filled(u, m, sink, last, finals, starts, states, IDENTITY) && |finals| == states
    ensures a in ArcsOf(u) ==> 0 <= a.src < states && InSigma(a.letter, last) && a.dst == Goes(m, a.src, a.letter, sink)
    ensures 0 <= a.src < states && InSigma(a.letter, last) && a.dst == Goes(m, a.src, a.letter, sink) != -1 ==>
              a in ArcsOf(u)
  {
    hide Goes;
    if a in ArcsOf(u) {
      var k :| 0 <= k < |u| && u[k].target != -1 && LineArc(u[k]) == a;
      EntryAt(u, m, sink, last, finals, starts, states, IDENTITY, k);
    }
    if 0 <= a.src < states && InSigma(a.letter, last) && a.dst == Goes(m, a.src, a.letter, sink) != -1 {
      assert HasEntry(u, a.src, a.letter.inp);
      var k :| 0 <= k < |u| && u[k].state == a.src && u[k].inp == a.letter.inp;
      EntryAt(u, m, sink, last, finals, starts, states, IDENTITY, k);
      assert LineArc(u[k]) == a;
    }
  }

  lemma FilledFlags(u: seq<Line>, m: Net, sink: int, last: int, finals: seq<bool>, starts: seq<bool>, states: nat,
                    q: int)
    requires Filled(u, m, sink, last, finals, starts, states, IDENTITY) && |finals| == |starts| == states
             && last >= IDENTITY
    ensures q in FinalsOf(u) <==> 0 <= q < states && finals[q]
    ensures q in StartsOf(u) <==> 0 <= q < states && starts[q]
  {
    forall k | 0 <= k < |u| ensures 0 <= u[k].state < states && u[k].final == finals[u[k].state]
        && u[k].start == starts[u[k].state] {
      EntryAt(u, m, sink, last, finals, starts, states, IDENTITY, k);
    }
    if 0 <= q < states {
      assert HasEntry(u, q, IDENTITY);
      var k :| 0 <= k < |u| && u[k].state == q && u[k].inp == IDENTITY;
    }
  }

  lemma FilledCompletion(u: seq<Line>, m: Net, sink: int, last: int, finals: seq<bool>, starts: seq<bool>, states: nat,
                         complement: bool)
    requires Filled(u, m, sink, last, finals, starts, states, IDENTITY) && |finals| == |starts| == states
             && last >= IDENTITY
    requires Deterministic(m) && SingleTape(m, last) && IsSink(m, sink) && IsTable(u, states)
    requires states == if sink == m.states then m.states + 1 else m.states
    requires forall q :: 0 <= q < states ==> (starts[q] <==> q in m.starts)
                                             && (finals[q] <==> (q in m.finals) != complement)
    ensures IsCompletion(m, Meaning(u, states), last, sink, complement)
  {
    hide Filled, Goes;
    var k := Meaning(u, states);
    TableIsClosed(u, states);
    hide IsTable;
    forall a ensures a in k.arcs ==> 0 <= a.src < states && InSigma(a.letter, last)
                                     && a.dst == Goes(m, a.src, a.letter, sink) {
      FilledArc(u, m, sink, last, finals, starts, states, a);
    }
    forall q, l | 0 <= q < states && InSigma(l, last) ensures Next(k.arcs, q, l) == Goes(m, q, l, sink) {
      GoesBounds(m, q, l, sink);
      FilledArc(u, m, sink, last, finals, starts, states, Arc(q, l, Goes(m, q, l, sink)));
    }
    forall q ensures q in k.starts <==> q in m.starts {
      FilledFlags(u, m, sink, last, finals, starts, states, q);
    }
    forall q | 0 <= q < states ensures q in k.finals <==> (q in m.finals) != complement {
      FilledFlags(u, m, sink, last, finals, starts, states, q);
    }
    assert k.starts == m.starts;
    assert EpsilonFree(k.arcs);
  }

  // ---- fsm_completes ----

  lemma ExchangedTable(t: seq<Line>, n: nat, u: seq<Line>, complement: bool)
    requires IsTable(t, n) && |u| == |t| && forall k :: 0 <= k < |t| ==> u[k] == Flipped(t[k], complement)
    ensures IsTable(u, n) && IsExchange(Meaning(t, n), Meaning(u, n), complement)
  {
    assert forall k :: 0 <= k < |t| ==> LineArc(u[k]) == LineArc(t[k]);
    forall q | 0 <= q < n ensures HasLine(u, q) && (q in FinalsOf(u) <==> (q in FinalsOf(t)) != complement) {
      assert HasLine(t, q);
      var k :| 0 <= k < |t| && t[k].state == q;
      assert u[k].state == q;
      assert q in FinalsOf(t) <==> t[k].final;
      assert q in FinalsOf(u) <==> u[k].final;
    }
    assert ArcsOf(u) == ArcsOf(t);
    assert StartsOf(u) == StartsOf(t);
    TableIsClosed(u, n);
  }

  ghost predicate SameShape(t: seq<Line>, u: seq<Line>) {
    |u| == |t| && forall k :: 0 <= k < |t| ==>
      u[k].state == t[k].state && u[k].target == t[k].target && LineArc(u[k]) == LineArc(t[k])
  }

  lemma ExchangedShape(t: seq<Line>, u: seq<Line>)
    requires SameShape(t, u)
    ensures DistinctLines(t) ==> DistinctLines(u)
    ensures Grouped(t) && LoneFlags(t) ==> Grouped(u) && LoneFlags(u)
  {
  }

  lemma ExchangedOrder(t: seq<Line>, u: seq<Line>)
    requires SameShape(t, u) && InOrder(t)
    ensures InOrder(u)
  {
    forall i, d | 0 <= i < |u| && RowBegins(u, i) && 0 < d < u[i].state ensures Known(u, i, d) {
      assert RowBegins(t, i);
      assert Known(t, i, d);
      var k :| 0 <= k < i && (t[k].state == d || (t[k].target == d && Companion(t, i, k)));
      if t[k].state != d {
        var m :| 0 <= m < i && m != k && t[m].state == t[k].state;
        assert u[m].state == u[k].state;
      }
    }
  }

  // incomplete: @ was not in the alphabet yet.  A table written anew is a net
  // with its rows in order; a table exchanged in place is one if it was before.
  method FsmCompletes(fsm: array<Line>, n: nat, last: nat, incomplete: bool, complement: bool, ghost t: seq<Line>)
    returns (out: array<Line>, states: nat, lines: nat)
    requires IsTable(t, n) && DistinctLines(t) && Deterministic(Meaning(t, n)) && SingleTape(Meaning(t, n), last)
             && last >= IDENTITY
    requires fsm.Length > |t| && fsm[..|t|] == t && fsm[|t|].state == -1
    modifies fsm
    ensures lines < out.Length && out[lines].state == -1 && IsTable(out[..lines], states)
    ensures Completes(Meaning(t, n), Meaning(out[..lines], states), last, complement) && DistinctLines(out[..lines])
    ensures out != fsm || IsNet(t, n) ==> IsNet(out[..lines], states)
    ensures out != fsm || InOrder(t) ==> InOrder(out[..lines])
  {
    hide IsTable, Noted, DistinctLines, Deterministic, SingleTape, Filled, IsSink, ArcsOf, FinalsOf, StartsOf,
         Completes, IsCompletion, IsExchange, InOrder, Grouped, LoneFlags, Ascending;
    ghost var m := Meaning(t, n);
    var arccount, starts, finals, sinks, linecount := FirstPass(fsm, n, complement, t);
    NotedStates(t, n, complement, starts, finals, sinks);
    if !incomplete && arccount == (last - 1) * n {
      out, states, lines := fsm, n, linecount;
      ExchangedTable(t, n, fsm[..|t|], complement);
      ExchangedShape(t, fsm[..|t|]);
      if InOrder(t) {
        ExchangedOrder(t, fsm[..|t|]);
      }
      CountedTotal(m, last);
      ExchangeLanguage(m, Meaning(out[..lines], states), last, complement);
      return;
    }
    var sink := FindSink(sinks, n, m);
    states := n;
    if sink == n {
      starts := starts[n := false];
      finals := finals[n := complement];
      states := n + 1;
    } else {
      starts, finals := starts[..n], finals[..n];
    }
    NewState(m, n);
    var table := Successors(fsm, n, last, states, sink, t);
    out, lines := WriteTable(table, states, last, finals, starts, m, sink);
    FilledNet(out[..lines], m, sink, last, finals, starts, states);
    AscendingInOrder(out[..lines], states);
    FilledCompletion(out[..lines], m, sink, last, finals, starts, states, complement);
    CompletionLanguage(m, Meaning(out[..lines], states), last, sink, complement);
  }

  lemma NewState(m: Net, n: nat)
    requires Deterministic(m) && m.states == n
    ensures Closed(m) && n > 0 && n !in m.starts && n !in m.finals
  {
    assert 0 in m.starts;
  }
}
