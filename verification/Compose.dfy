// fsm_compose (constructions.c), bistate variant, flags treated as ordinary
// symbols: the loop over pairs, and the stamped index of the second net.

module Compose {
  import opened Nets
  import opened Alphabets
  import opened Counting
  import opened TripletHash
  import opened Pointers
  import opened Explore
  import opened Order
  import opened Composition
  import opened Relations

  datatype OutEntry = OutEntry(symin: int, symout: int, target: int, mainloop: int)

  const NO_ENTRY := OutEntry(0, 0, 0, 0)

  // Symbols are below size, and @ stands only opposite itself.
  ghost predicate SymbolsOK(m: Net, size: nat) {
    forall q :: q in m.arcs ==> 0 <= q.letter.inp < size && 0 <= q.letter.outp < size
                                && (q.letter.inp == IDENTITY ==> q.letter.outp == IDENTITY)
  }

  // Different entries of one row get different codes below size + 1.
  ghost function Code(q: Arc, size: nat): int {
    if q.letter.inp == IDENTITY then size else q.letter.outp
  }

  lemma CodesDiffer(m: Net, size: nat, p: Arc, q: Arc)
    requires Deterministic(m) && SymbolsOK(m, size) && p in m.arcs && q in m.arcs && p != q && p.src == q.src
    requires Class(p.letter.inp) == Class(q.letter.inp)
    ensures Code(p, size) != Code(q, size)
  {
    assert p.letter != q.letter;
  }

  // A row never needs more than size + 1 entries.
  lemma RowFits(m: Net, size: nat, row: seq<Arc>, b: int, s: int)
    requires Deterministic(m) && SymbolsOK(m, size) && NoDup(row)
    requires forall k :: 0 <= k < |row| ==> row[k] in m.arcs && row[k].src == b && Class(row[k].letter.inp) == s
    ensures |row| <= size + 1
  {
    var codes := seq(|row|, k requires 0 <= k < |row| => Code(row[k], size));
    forall i, k | 0 <= i < k < |codes| ensures codes[i] != codes[k] {
      CodesDiffer(m, size, row[i], row[k]);
    }
    NoDupBound(codes, size + 1);
  }

  lemma RowGrows(m: Net, size: nat, row: seq<Arc>, q: Arc, b: int, s: int)
    requires Deterministic(m) && SymbolsOK(m, size) && NoDup(row) && q !in row && q in m.arcs && q.src == b
             && Class(q.letter.inp) == s
    requires forall x :: x in row ==> x in m.arcs && x.src == b && Class(x.letter.inp) == s
    ensures |row| < size + 1 && NoDup(row + [q])
  {
    RowFits(m, size, row + [q], b, s);
  }

  class OutIndex {
    const size: nat
    const outarray: array2<OutEntry>
    const tail: array<int>
    var mainloop: int
    // The arcs entered under each symbol since mainloop was last raised.
    ghost var rows: seq<seq<Arc>>

    ghost predicate Shape()
      reads this
    {
      outarray.Length0 == size == tail.Length == |rows| && outarray.Length1 == size + 1
    }

    ghost predicate RowOK(s: int)
      reads this, outarray, tail
      requires Shape() && 0 <= s < size
    {
      var row := rows[s];
      && |row| <= size + 1
      && (row != [] ==> tail[s] == |row| - 1)
      && (forall k :: 0 <= k < |row| ==>
            outarray[s, k] == OutEntry(row[k].letter.inp, row[k].letter.outp, row[k].dst, mainloop))
      && (forall k :: |row| <= k < size + 1 ==> outarray[s, k].mainloop < mainloop)
    }

    // No entry is newer than mainloop.
    ghost predicate Ready()
      reads this, outarray, tail
    {
      && Shape() && (forall s :: 0 <= s < size ==> 0 <= tail[s] < size + 1)
      && (forall s, k :: 0 <= s < size && 0 <= k < size + 1 ==> outarray[s, k].mainloop <= mainloop)
    }

    ghost predicate Valid()
      reads this, outarray, tail
    {
      Ready() && forall s :: 0 <= s < size ==> RowOK(s)
    }

    // The rows hold the arcs in qs.
    ghost predicate Holds(qs: set<Arc>)
      reads this
    {
      && |rows| == size
      && (forall s :: 0 <= s < size ==> NoDup(rows[s]))
      && (forall s, q :: 0 <= s < size ==> (q in rows[s] <==> q in qs && Class(q.letter.inp) == s))
    }

    constructor (size: nat)
      ensures Ready() && this.size == size && fresh(outarray) && fresh(tail)
    {
      this.size := size;
      outarray := new OutEntry[size, size + 1]((i, j) => NO_ENTRY);
      tail := new int[size](_ => 0);
      mainloop := 0;
      rows := seq(size, _ => []);
    }

    lemma RowMembers(qs: set<Arc>, s: int)
      requires Holds(qs) && 0 <= s < size
      ensures |rows| == size && forall q :: q in rows[s] <==> q in qs && Class(q.letter.inp) == s
    {
    }

    lemma StillReady()
      requires Valid()
      ensures Ready()
    {
    }

    // A new round: all entries become old.
    method NextRound()
      requires Ready()
      modifies this
      ensures Valid() && Holds({})
    {
      mainloop := mainloop + 1;
      rows := seq(size, _ => []);
    }

    // One arc of the second net.
    method Enter(inp: int, outp: int, target: int, ghost m: Net, ghost qs: set<Arc>, ghost b: int)
      requires Valid() && Holds(qs) && Deterministic(m) && SymbolsOK(m, size)
      requires forall q :: q in qs ==> q in m.arcs && q.src == b
      requires Arc(b, Letter(inp, outp), target) in m.arcs && Arc(b, Letter(inp, outp), target) !in qs
      modifies this`rows, outarray, tail
      ensures Valid() && Holds(qs + {Arc(b, Letter(inp, outp), target)})
    {
      hide Deterministic, NoDup;
      ghost var q := Arc(b, Letter(inp, outp), target);
      var s := Class(inp);
      ghost var row := rows[s];
      assert RowOK(s) && q !in row;
      assert SymbolsOK(m, size) && 0 <= inp < size;
      RowGrows(m, size, row, q, b, s);
      hide SymbolsOK;
      var at := 0;
      if outarray[s, tail[s]].mainloop == mainloop {
        at := tail[s] + 1;
      }
      assert at == |row|;
      outarray[s, at] := OutEntry(inp, outp, target, mainloop);
      tail[s] := at;
      rows := rows[s := row + [q]];
      forall g | 0 <= g < size ensures RowOK(g) {
        assert g != s ==> old(RowOK(g));
      }
    }
  }

  lemma NewInRow(t: seq<Line>, first: nat, i: nat)
    requires DistinctLines(t) && first <= i < |t| && t[i].target != -1
    ensures LineArc(t[i]) !in ArcsIn(t, first, i)
  {
  }

  // Indexes the arcs of b.
  method IndexRow(index: OutIndex, t: seq<Line>, n: nat, point: seq<StateArr>, b: int)
    requires IsNet(t, n) && DistinctLines(t) && PointersOK(point, t, n) && 0 <= b < n
    requires index.Ready() && Deterministic(Meaning(t, n)) && SymbolsOK(Meaning(t, n), index.size)
    modifies index, index.outarray, index.tail
    ensures index.Valid() && index.Holds(ArcsAt(ArcsOf(t), b))
  {
    hide IsNet, PointersOK, ArcsOf, ArcsIn, Grouped, Deterministic, SymbolsOK, DistinctLines, OutIndex.Valid,
         OutIndex.Holds;
    ghost var m := Meaning(t, n);
    NetLines(t, n);
    RowStart(t, point, n, b);
    index.NextRound();
    var first := point[b].first;
    var i := first;
    while i < |t| && t[i].state == b
      invariant OnRow(t, first, i, b) && first < |t| && t[first].state == b
      invariant index.Valid() && index.Holds(ArcsIn(t, first, i))
    {
      RowNext(t, first, i, b);
      RowPart(t, first, i, b);
      assert LineOK(t[i], n);
      assert ArcsIn(t, first, i) + {} == ArcsIn(t, first, i);
      if t[i].inp >= 0 && t[i].target >= 0 {
        NewInRow(t, first, i);
        LineIsArc(t, i);
        index.Enter(t[i].inp, t[i].outp, t[i].target, m, ArcsIn(t, first, i), b);
      }
      i := i + 1;
    }
    NetRow(t, n, first, i, b);
  }

  // ---- The moves of one pair ----

  // The move of two arcs, if they meet.
  ghost function Meeting(p: Arc, q: Arc): set<Move> {
    if Meets(p, q) then {Move(Join(p.letter, q.letter), Triple(p.dst, q.dst, 0))} else {}
  }

  lemma MatchesNext(p: Arc, qs: set<Arc>, q: Arc)
    ensures Matches({p}, qs + {q}) == Matches({p}, qs) + Meeting(p, q)
  {
    var all := Matches({p}, qs + {q});
    if Meets(p, q) {
      assert p in {p} && q in qs + {q};
      assert Move(Join(p.letter, q.letter), Triple(p.dst, q.dst, 0)) in all;
    }
  }

  lemma MatchesJoin(ps: set<Arc>, p: Arc, qs: set<Arc>)
    ensures Matches(ps + {p}, qs) == Matches(ps, qs) + Matches({p}, qs)
  {
  }

  // Only the row of its class matters for an arc.
  lemma MatchesRow(p: Arc, qs: set<Arc>, row: set<Arc>)
    requires forall q :: q in row <==> q in qs && Class(q.letter.inp) == Class(p.letter.outp)
    ensures Matches({p}, row) == Matches({p}, qs)
  {
  }

  lemma NoMatches(qs: set<Arc>)
    ensures Matches({}, qs) == {} && forall p :: Matches({p}, {}) == {}
  {
  }

  lemma MatchIsMove(am: Net, bm: Net, x: Triple, p: Arc, q: Arc)
    requires p in ArcsAt(am.arcs, x.a) && q in ArcsAt(bm.arcs, x.b) && Meets(p, q)
    ensures Move(Join(p.letter, q.letter), Triple(p.dst, q.dst, 0)) in Composed(am, bm).next(x)
  {
  }

  // An arc of the first net and an entry of the index.
  method MatchEntry(e: Explorer, ghost cur: nat, ghost sofar: set<Move>, p: Line, iptr: OutEntry, ghost q: Arc,
                    ghost am: Net, ghost bm: Net, ghost x: Triple)
    requires LineArc(p) in ArcsAt(am.arcs, x.a) && q in ArcsAt(bm.arcs, x.b) && p.inp >= 0 && p.outp >= 0
    requires iptr.symin == q.letter.inp >= 0 && iptr.symout == q.letter.outp >= 0 && iptr.target == q.dst
    requires Class(p.outp) == Class(q.letter.inp)
    requires e.space == Composed(am, bm) && cur < |e.table.keys| && e.table.keys[cur] == x && e.Valid(cur, sofar)
    modifies e`stack, e`pushed, e.table, e.table.triplets, e.writer
    ensures e.Valid(cur, sofar + Meeting(LineArc(p), q)) && old(e.table.keys) <= e.table.keys
    ensures e.table.triplets == old(e.table.triplets) || fresh(e.table.triplets)
  {
    hide ArcsAt, Explorer.Valid, Composed;
    var ain, aout, bin, bout := p.inp, p.outp, iptr.symin, iptr.symout;
    if aout == IDENTITY && bin == UNKNOWN {
      ain, aout := UNKNOWN, UNKNOWN;
    } else if aout == UNKNOWN && bin == IDENTITY {
      bin, bout := UNKNOWN, UNKNOWN;
    }
    if bin == aout && bin != -1 && bin != EPSILON {
      MatchIsMove(am, bm, x, LineArc(p), q);
      e.Add(ain, bout, Triple(p.target, iptr.target, 0), cur, sofar);
    } else {
      assert sofar + {} == sofar;
    }
  }

  // Everything that meets one arc of the first net.
  method MatchArc(e: Explorer, ghost cur: nat, ghost base: set<Move>, index: OutIndex, ghost qs: set<Arc>,
                  p: Line, ghost am: Net, ghost bm: Net, ghost x: Triple)
    requires index.Valid() && index.Holds(qs) && qs == ArcsAt(bm.arcs, x.b) && LineArc(p) in ArcsAt(am.arcs, x.a)
    requires 0 <= p.outp < index.size && p.inp >= 0 && UNKNOWN < index.size
             && (forall q :: q in qs ==> q.letter.inp >= 0 && q.letter.outp >= 0)
    requires e.space == Composed(am, bm) && cur < |e.table.keys| && e.table.keys[cur] == x && e.Valid(cur, base)
    modifies e`stack, e`pushed, e.table, e.table.triplets, e.writer
    ensures e.Valid(cur, base + Matches({LineArc(p)}, qs)) && old(e.table.keys) <= e.table.keys
    ensures e.table.triplets == old(e.table.triplets) || fresh(e.table.triplets)
  {
    hide Matches, Meeting, ArcsAt, Explorer.Valid, OutIndex.Holds, NoDup, Composed;
    var s := Class(p.outp);
    assert index.RowOK(s);
    ghost var row, a := index.rows[s], LineArc(p);
    index.RowMembers(qs, s);
    NoMatches(qs);
    var k, currtail := 0, index.tail[s] + 1;
    assert base + {} == base && Elements(row[..0]) == {};
    while k != currtail && index.outarray[s, k].mainloop == index.mainloop
      invariant 0 <= k <= |row| && e.Valid(cur, base + Matches({a}, Elements(row[..k])))
                && old(e.table.keys) <= e.table.keys
      invariant e.table.triplets == old(e.table.triplets) || fresh(e.table.triplets)
      decreases |row| - k
    {
      ghost var q, sofar := row[k], base + Matches({a}, Elements(row[..k]));
      assert row[..k + 1] == row[..k] + [q] && q in row;
      assert Elements(row[..k + 1]) == Elements(row[..k]) + {q};
      MatchesNext(a, Elements(row[..k]), q);
      MatchEntry(e, cur, sofar, p, index.outarray[s, k], q, am, bm, x);
      assert base + (Matches({a}, Elements(row[..k])) + Meeting(a, q)) == sofar + Meeting(a, q);
      k := k + 1;
    }
    assert row[..|row|] == row;
    MatchesRow(a, qs, Elements(row));
  }

  // First loop over the arcs of a: everything that meets in the middle.
  method MatchAll(e: Explorer, ghost cur: nat, index: OutIndex, t1: seq<Line>, n1: nat, point1: seq<StateArr>,
                  ghost bm: Net, x: Triple)
    requires IsNet(t1, n1) && PointersOK(point1, t1, n1) && 0 <= x.a < n1 && SymbolsOK(Meaning(t1, n1), index.size)
             && UNKNOWN < index.size
    requires index.Valid() && index.Holds(ArcsAt(bm.arcs, x.b)) && SymbolsOK(bm, index.size)
    requires e.space == Composed(Meaning(t1, n1), bm) && cur < |e.table.keys| && e.table.keys[cur] == x
             && e.Valid(cur, {})
    modifies e`stack, e`pushed, e.table, e.table.triplets, e.writer
    ensures e.Valid(cur, Matches(ArcsAt(ArcsOf(t1), x.a), ArcsAt(bm.arcs, x.b))) && old(e.table.keys) <= e.table.keys
    ensures e.table.triplets == old(e.table.triplets) || fresh(e.table.triplets)
  {
    hide IsNet, PointersOK, ArcsOf, ArcsIn, Grouped, Explorer.Valid, OutIndex.Valid, OutIndex.Holds, Matches, ArcsAt;
    ghost var am, qs := Meaning(t1, n1), ArcsAt(bm.arcs, x.b);
    NetLines(t1, n1);
    RowStart(t1, point1, n1, x.a);
    NoMatches(qs);
    SymbolsAt(bm, index.size, x.b);
    var first := point1[x.a].first;
    var i := first;
    while i < |t1| && t1[i].state == x.a
      invariant OnRow(t1, first, i, x.a) && first < |t1| && t1[first].state == x.a
      invariant e.Valid(cur, Matches(ArcsIn(t1, first, i), qs)) && old(e.table.keys) <= e.table.keys
      invariant e.table.triplets == old(e.table.triplets) || fresh(e.table.triplets)
    {
      RowNext(t1, first, i, x.a);
      assert LineOK(t1[i], n1);
      assert ArcsIn(t1, first, i) + {} == ArcsIn(t1, first, i);
      if t1[i].outp >= 0 {
        LineIsArc(t1, i);
        MatchesJoin(ArcsIn(t1, first, i), LineArc(t1[i]), qs);
        MatchArc(e, cur, Matches(ArcsIn(t1, first, i), qs), index, qs, t1[i], am, bm, x);
      }
      i := i + 1;
    }
    NetRow(t1, n1, first, i, x.a);
  }

  lemma SymbolsAt(m: Net, size: nat, q: int)
    requires SymbolsOK(m, size)
    ensures forall a :: a in ArcsAt(m.arcs, q) ==> a.letter.inp >= 0 && a.letter.outp >= 0
  {
  }

  lemma LeftsNext(ps: set<Arc>, p: Arc, b: int, mode: int)
    ensures Lefts(ps + {p}, b, mode) == Lefts(ps, b, mode)
              + (if p.letter.outp == EPSILON && mode == 0
                 then {Move(Letter(p.letter.inp, EPSILON), Triple(p.dst, b, 0))} else {})
    ensures Lefts({}, b, mode) == {}
  {
    if p.letter.outp == EPSILON && mode == 0 {
      assert p in ps + {p};
      assert Move(Letter(p.letter.inp, EPSILON), Triple(p.dst, b, 0)) in Lefts(ps + {p}, b, mode);
    }
  }

  lemma LeftIsMove(am: Net, bm: Net, x: Triple, p: Arc)
    requires p in ArcsAt(am.arcs, x.a) && p.letter.outp == EPSILON && x.c == 0
    ensures Move(Letter(p.letter.inp, EPSILON), Triple(p.dst, x.b, 0)) in Composed(am, bm).next(x)
  {
    assert Move(Letter(p.letter.inp, EPSILON), Triple(p.dst, x.b, 0)) in Lefts(ArcsAt(am.arcs, x.a), x.b, x.c);
  }

  // Second loop over the arcs of a: x:0 arcs, in mode 0.
  method FollowLeft(e: Explorer, ghost cur: nat, ghost base: set<Move>, t1: seq<Line>, n1: nat, point1: seq<StateArr>,
                    ghost bm: Net, x: Triple)
    requires IsNet(t1, n1) && PointersOK(point1, t1, n1) && 0 <= x.a < n1
    requires e.space == Composed(Meaning(t1, n1), bm) && cur < |e.table.keys| && e.table.keys[cur] == x
             && e.Valid(cur, base)
    modifies e`stack, e`pushed, e.table, e.table.triplets, e.writer
    ensures e.Valid(cur, base + Lefts(ArcsAt(ArcsOf(t1), x.a), x.b, x.c)) && old(e.table.keys) <= e.table.keys
    ensures e.table.triplets == old(e.table.triplets) || fresh(e.table.triplets)
  {
    hide IsNet, PointersOK, ArcsOf, ArcsIn, Grouped, Explorer.Valid, Lefts, ArcsAt;
    ghost var am := Meaning(t1, n1);
    NetLines(t1, n1);
    RowStart(t1, point1, n1, x.a);
    LeftsNone(x.b, x.c);
    assert base + {} == base;
    var first := point1[x.a].first;
    var i := first;
    while i < |t1| && t1[i].state == x.a
      invariant OnRow(t1, first, i, x.a) && first < |t1| && t1[first].state == x.a
      invariant e.Valid(cur, base + Lefts(ArcsIn(t1, first, i), x.b, x.c)) && old(e.table.keys) <= e.table.keys
      invariant e.table.triplets == old(e.table.triplets) || fresh(e.table.triplets)
    {
      RowNext(t1, first, i, x.a);
      assert LineOK(t1[i], n1);
      ghost var ps, p := ArcsIn(t1, first, i), LineArc(t1[i]);
      ghost var sofar := base + Lefts(ps, x.b, x.c);
      LeftsNext(ps, p, x.b, x.c);
      assert ps + {} == ps && Lefts(ps, x.b, x.c) + {} == Lefts(ps, x.b, x.c);
      if t1[i].outp == EPSILON && x.c == 0 {
        LineIsArc(t1, i);
        LeftIsMove(am, bm, x, p);
        e.Add(t1[i].inp, EPSILON, Triple(t1[i].target, x.b, 0), cur, sofar);
        ghost var mv := Move(Letter(p.letter.inp, EPSILON), Triple(p.dst, x.b, 0));
        assert base + (Lefts(ps, x.b, x.c) + {mv}) == sofar + {mv};
      }
      i := i + 1;
    }
    NetRow(t1, n1, first, i, x.a);
  }

  lemma LeftsNone(b: int, mode: int)
    ensures Lefts({}, b, mode) == {} && forall a :: Rights({}, a) == {}
  {
  }

  lemma RightsNext(qs: set<Arc>, q: Arc, a: int)
    ensures Rights(qs + {q}, a) == Rights(qs, a)
              + (if q.letter.inp == EPSILON then {Move(Letter(EPSILON, q.letter.outp), Triple(a, q.dst, 1))} else {})
  {
    if q.letter.inp == EPSILON {
      assert q in qs + {q};
      assert Move(Letter(EPSILON, q.letter.outp), Triple(a, q.dst, 1)) in Rights(qs + {q}, a);
    }
  }

  lemma RightIsMove(am: Net, bm: Net, x: Triple, q: Arc)
    requires q in ArcsAt(bm.arcs, x.b) && q.letter.inp == EPSILON
    ensures Move(Letter(EPSILON, q.letter.outp), Triple(x.a, q.dst, 1)) in Composed(am, bm).next(x)
  {
    assert Move(Letter(EPSILON, q.letter.outp), Triple(x.a, q.dst, 1)) in Rights(ArcsAt(bm.arcs, x.b), x.a);
  }

  // Loop over the arcs of b: 0:y arcs, into mode 1.
  method FollowRight(e: Explorer, ghost cur: nat, ghost base: set<Move>, ghost am: Net, t2: seq<Line>, n2: nat,
                     point2: seq<StateArr>, x: Triple)
    requires IsNet(t2, n2) && PointersOK(point2, t2, n2) && 0 <= x.b < n2
    requires e.space == Composed(am, Meaning(t2, n2)) && cur < |e.table.keys| && e.table.keys[cur] == x
             && e.Valid(cur, base)
    modifies e`stack, e`pushed, e.table, e.table.triplets, e.writer
    ensures e.Valid(cur, base + Rights(ArcsAt(ArcsOf(t2), x.b), x.a)) && old(e.table.keys) <= e.table.keys
    ensures e.table.triplets == old(e.table.triplets) || fresh(e.table.triplets)
  {
    hide IsNet, PointersOK, ArcsOf, ArcsIn, Grouped, Explorer.Valid, Rights, ArcsAt;
    ghost var bm := Meaning(t2, n2);
    NetLines(t2, n2);
    RowStart(t2, point2, n2, x.b);
    LeftsNone(x.b, x.c);
    assert base + {} == base;
    var first := point2[x.b].first;
    var i := first;
    while i < |t2| && t2[i].state == x.b
      invariant OnRow(t2, first, i, x.b) && first < |t2| && t2[first].state == x.b
      invariant e.Valid(cur, base + Rights(ArcsIn(t2, first, i), x.a)) && old(e.table.keys) <= e.table.keys
      invariant e.table.triplets == old(e.table.triplets) || fresh(e.table.triplets)
    {
      RowNext(t2, first, i, x.b);
      assert LineOK(t2[i], n2);
      ghost var qs, q := ArcsIn(t2, first, i), LineArc(t2[i]);
      ghost var sofar := base + Rights(qs, x.a);
      RightsNext(qs, q, x.a);
      assert qs + {} == qs && Rights(qs, x.a) + {} == Rights(qs, x.a);
      if t2[i].inp == EPSILON {
        LineIsArc(t2, i);
        RightIsMove(am, bm, x, q);
        e.Add(EPSILON, t2[i].outp, Triple(x.a, t2[i].target, 1), cur, sofar);
        ghost var mv := Move(Letter(EPSILON, q.letter.outp), Triple(x.a, q.dst, 1));
        assert base + (Rights(qs, x.a) + {mv}) == sofar + {mv};
      }
      i := i + 1;
    }
    NetRow(t2, n2, first, i, x.b);
  }

  // ---- The whole ----

  ghost function PairModes(n1: nat, n2: nat): (r: set<Triple>)
    ensures forall x :: x in r <==> 0 <= x.a < n1 && 0 <= x.b < n2 && 0 <= x.c < 2
  {
    var all := set a, b, c | 0 <= a < n1 && 0 <= b < n2 && 0 <= c < 2 :: Triple(a, b, c);
    assert forall x: Triple :: 0 <= x.a < n1 && 0 <= x.b < n2 && 0 <= x.c < 2 ==> x == Triple(x.a, x.b, x.c);
    all
  }

  lemma ModesBounded(am: Net, bm: Net)
    requires Deterministic(am) && Deterministic(bm)
    ensures Triple(0, 0, 0) in PairModes(am.states, bm.states)
    ensures forall x, mv :: x in PairModes(am.states, bm.states) && mv in Composed(am, bm).next(x) ==>
                              mv.to in PairModes(am.states, bm.states)
  {
    assert 0 in am.starts && 0 in bm.starts;
    forall x, mv | x in PairModes(am.states, bm.states) && mv in Composed(am, bm).next(x)
      ensures mv.to in PairModes(am.states, bm.states) {
      MovesAreJoint(am, bm, x, mv);
      var j :| JointStep(am, bm, x, j) && MoveOf(x, j) == mv;
    }
  }

  lemma ComposedFlags(point1: seq<StateArr>, t1: seq<Line>, n1: nat, point2: seq<StateArr>, t2: seq<Line>, n2: nat,
                      x: Triple)
    requires PointersOK(point1, t1, n1) && PointersOK(point2, t2, n2) && x in PairModes(n1, n2)
    requires Deterministic(Meaning(t1, n1)) && Deterministic(Meaning(t2, n2))
    ensures |point1| == n1 && |point2| == n2
    ensures point1[x.a].final && point2[x.b].final <==> x.a in FinalsOf(t1) && x.b in FinalsOf(t2)
    ensures point1[x.a].start && point2[x.b].start && x.c == 0 <==> x == Triple(0, 0, 0)
  {
  }

  // All arcs of one pair of states in its mode.
  method ComposePair(e: Explorer, ghost cur: nat, x: Triple, index: OutIndex, t1: seq<Line>, n1: nat,
                     point1: seq<StateArr>,
                     t2: seq<Line>, n2: nat, point2: seq<StateArr>)
    requires IsNet(t1, n1) && PointersOK(point1, t1, n1) && 0 <= x.a < n1 && SymbolsOK(Meaning(t1, n1), index.size)
    requires IsNet(t2, n2) && PointersOK(point2, t2, n2) && 0 <= x.b < n2 && SymbolsOK(Meaning(t2, n2), index.size)
    requires Deterministic(Meaning(t2, n2)) && DistinctLines(t2) && index.Ready() && IDENTITY < index.size
    requires e.space == Composed(Meaning(t1, n1), Meaning(t2, n2)) && cur < |e.table.keys| && e.table.keys[cur] == x
             && e.Valid(cur, {})
    modifies index, index.outarray, index.tail, e, e.table, e.table.triplets, e.writer
    ensures index.Ready() && e.Valid(-1, {}) && e.done == old(e.done) + {cur}
    ensures e.table.triplets == old(e.table.triplets) || fresh(e.table.triplets)
  {
    hide IsNet, PointersOK, Explorer.Valid, Deterministic, SymbolsOK, DistinctLines, OutIndex.Ready, OutIndex.Valid,
         OutIndex.Holds;
    hide Matches, Lefts, Rights;
    ghost var am, bm := Meaning(t1, n1), Meaning(t2, n2);
    ghost var ps, qs := ArcsAt(am.arcs, x.a), ArcsAt(bm.arcs, x.b);
    IndexRow(index, t2, n2, point2, x.b);
    index.StillReady();
    MatchAll(e, cur, index, t1, n1, point1, bm, x);
    FollowLeft(e, cur, Matches(ps, qs), t1, n1, point1, bm, x);
    FollowRight(e, cur, Matches(ps, qs) + Lefts(ps, x.b, x.c), am, t2, n2, point2, x);
    e.EndState(cur);
  }

  // The loop of fsm_compose.
  method ComposeNets(t1: seq<Line>, n1: nat, t2: seq<Line>, n2: nat, size: nat)
    returns (out: seq<Line>, states: nat, ghost keys: seq<Triple>)
    requires IsNet(t1, n1) && Deterministic(Meaning(t1, n1)) && IsNet(t2, n2) && Deterministic(Meaning(t2, n2))
             && DistinctLines(t2)
    requires SymbolsOK(Meaning(t1, n1), size) && SymbolsOK(Meaning(t2, n2), size) && IDENTITY < size
    ensures IsNet(out, states) && InOrder(out)
            && IsExplored(Composed(Meaning(t1, n1), Meaning(t2, n2)), Meaning(out, states), keys)
  {
    hide IsNet, PointersOK, Explorer.Valid, Deterministic, IsExplored, SymbolsOK, DistinctLines,
         OutIndex.Ready, OutIndex.Valid, OutIndex.Holds;
    hide Matches, Lefts, Rights;
    ghost var am, bm := Meaning(t1, n1), Meaning(t2, n2);
    NetLines(t1, n1);
    NetLines(t2, n2);
    var point1 := InitStatePointers(t1, n1);
    var point2 := InitStatePointers(t2, n2);
    ModesBounded(am, bm);
    var e := new Explorer(Composed(am, bm), PairModes(n1, n2), Triple(0, 0, 0));
    var index := new OutIndex(size);
    while e.stack != []
      invariant e.Valid(-1, {}) && fresh(e.table.triplets) && index.Ready()
      decreases e.Left()
    {
      var x := e.stack[|e.stack| - 1];
      e.SomeLeft();
      e.TopKnown();
      ComposedFlags(point1, t1, n1, point2, t2, n2, x);
      ghost var cur;
      x, cur := e.Open(point1[x.a].final && point2[x.b].final, point1[x.a].start && point2[x.b].start && x.c == 0);
      ComposePair(e, cur, x, index, t1, n1, point1, t2, n2, point2);
    }
    out, states := e.Close();
    keys := e.table.keys;
  }

  // fsm_compose, on nets with the merged alphabet s of symbols below size: it
  // relates x to y if the first net relates x to some string that the second
  // relates to y, without an unknown symbol that returns by way of another one.
  method FsmCompose(t1: seq<Line>, n1: nat, t2: seq<Line>, n2: nat, size: nat, ghost s: seq<Sym>)
    returns (out: seq<Line>, states: nat, ghost keys: seq<Triple>)
    requires IsNet(t1, n1) && Deterministic(Meaning(t1, n1)) && IsNet(t2, n2) && Deterministic(Meaning(t2, n2))
             && DistinctLines(t2)
    requires SymbolsOK(Meaning(t1, n1), size) && SymbolsOK(Meaning(t2, n2), size) && IDENTITY < size
    requires SigmaOK(s) && LettersOK(Meaning(t1, n1), s) && LettersOK(Meaning(t2, n2), s)
    ensures IsNet(out, states) && InOrder(out)
            && IsExplored(Composed(Meaning(t1, n1), Meaning(t2, n2)), Meaning(out, states), keys)
    ensures forall x, y :: OpenRelates(Meaning(out, states), s, x, y) <==>
                           Composes(Meaning(t1, n1), s, Meaning(t2, n2), s, s, x, y)
    ensures OuterKnown(Meaning(t1, n1), Meaning(t2, n2)) ==>
              forall x, y :: OpenRelates(Meaning(out, states), s, x, y) <==>
                exists z :: OpenRelates(Meaning(t1, n1), s, x, z) && OpenRelates(Meaning(t2, n2), s, z, y)
  {
    hide IsNet, Deterministic, IsExplored, SymbolsOK, DistinctLines, InOrder, OpenRelates, Composes, OuterKnown,
         LettersOK, SigmaOK;
    out, states, keys := ComposeNets(t1, n1, t2, n2, size);
    ghost var am, bm, k := Meaning(t1, n1), Meaning(t2, n2), Meaning(out, states);
    CanCompose(am, bm, s);
    forall x, y ensures OpenRelates(k, s, x, y) <==> Composes(am, s, bm, s, s, x, y) {
      CompositionRelation(am, bm, k, keys, s, x, y);
    }
    if OuterKnown(am, bm) {
      forall x, y ensures OpenRelates(k, s, x, y) <==> exists z :: OpenRelates(am, s, x, z)
                                                                   && OpenRelates(bm, s, z, y) {
        PlainComposition(am, bm, s, x, y);
      }
    }
  }

  lemma CanCompose(am: Net, bm: Net, s: seq<Sym>)
    requires Deterministic(am) && Deterministic(bm) && SigmaOK(s) && LettersOK(am, s) && LettersOK(bm, s)
    ensures Composable(am, bm, s)
  {
    hide SigmaOK, LettersOK;
  }
}
