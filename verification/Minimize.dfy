// fsm_minimize_hop and rebuild_machine (minimize.c).

module Minimize {
  import opened Nets
  import opened Counting
  import opened Nerode
  import opened Residuals
  import opened Splitters
  import opened Blocks
  import opened Symbols
  import opened Refine
  import opened Transitions
  import opened Widths
  import opened Inverse
  import opened Hopcroft
  import opened Schedule
  import opened InitialPartition
  import opened Rebuild

  // The net that is being minimized and what is known about its partition.
  ghost predicate Sound(p: Partition, sp: Splitter, m: Net, num: map<Letter, int>)
    reads p, p.E, p.P, p.A, sp, sp.trans, sp.memo
  {
    && p.Linked() && p.Settled() && sp.Ready() && p.n == sp.n == m.states
    && Deterministic(m) && Encodes(m, num, sp.d)
    && (Trim(m) ==> Justified(m, Groups(p.E[..]))) && FinalsAgree(m, Groups(p.E[..]))
  }

  // Every pair that still has to be told apart has a pending splitter, and the
  // agenda stands for the pending splitters (w being in use).
  ghost predicate Working(p: Partition, sp: Splitter, thr: seq<int>, w: int)
    reads p, p.E, p.P, p.A, sp.trans
  {
    && |thr| == p.pNext && Separated(sp.d, Groups(p.E[..]), thr)
    && Scheduled(p.A[..], p.P[..], Groups(p.E[..]), thr, sp.trans[..], w)
  }

  // temp_group holds the block w, used up to (not including) symbol c.
  ghost predicate InUse(p: Partition, sp: Splitter, thr: seq<int>, w: int, size: nat, c: int)
    reads p, p.E, p.P, sp.trans, sp.tempGroup
  {
    && 0 <= w < p.pNext <= p.P.Length && w == p.currentW && p.P[w].agenda == NULL && w < |thr|
    && size <= sp.tempGroup.Length && AllBelow(sp.tempGroup[..size], sp.trans.Length) && NoDup(sp.tempGroup[..size])
    && Elements(sp.tempGroup[..size]) == Members(p.E[..], w)
    && thr[w] < c <= INT_MAX
    && (forall i :: 0 <= i < size ==> CursorAt(sp.trans[sp.tempGroup[i]], thr[w], c))
  }

  // Collects the c-predecessors of the block in use.
  method Predecessors(p: Partition, sp: Splitter, w: int, size: nat, c: int, ghost thr: seq<int>, ghost m: Net,
                      ghost num: map<Letter, int>)
    returns (j: nat, nextSym: int, ghost thr1: seq<int>)
    requires Sound(p, sp, m, num) && Working(p, sp, thr, w) && InUse(p, sp, thr, w, size, c) && 0 <= c < INT_MAX
    modifies sp`mainloop, sp.memo, sp.tempMove, sp.trans
    ensures Sound(p, sp, m, num) && thr1 == thr[w := c - 1] && Working(p, sp, thr1, w)
    ensures j <= sp.n && sp.tempMove.Length == sp.n && AllBelow(sp.tempMove[..j], sp.n) && NoDup(sp.tempMove[..j])
    ensures IsPreimage(sp.d, Groups(p.E[..]), w, c, Elements(sp.tempMove[..j]))
    ensures c < nextSym <= INT_MAX && InUse(p, sp, thr1[w := c], w, size, nextSym)
    ensures forall x :: 0 <= x < sp.n && p.E[x].group != w ==> sp.trans[x] == old(sp.trans[x])
  {
    hide LinkOK, AgendaOK, ChainOK, InChain, InvOK, CountOK, Encodes, Separated, CursorAt, InverseOK, Deterministic,
         Justified, FinalsAgree, Scheduled;
    ghost var cls, tr := Groups(p.E[..]), sp.trans[..];
    ghost var grp := sp.tempGroup[..size];
    forall x | 0 <= x < |cls| ensures cls[x] == w <==> x in grp {
      assert x in Elements(grp) <==> x in Members(p.E[..], w);
    }
    CursorsLeaveNothing(sp.d, cls, tr, w, thr[w], c);
    SkipSymbols(sp.d, cls, thr, w, c);
    thr1 := thr[w := c - 1];
    j, nextSym := sp.CollectGroup(size, c, thr[w]);
    GatheredIsPreimage(sp.d, cls, p.E[..], sp.tempGroup[..size], w, c, Elements(sp.tempMove[..j]));
    UsingKeepsSchedule(p.A[..], p.P[..], cls, thr, tr, w, thr1, sp.trans[..]);
    if j > 0 {
      sp.mainloop := sp.mainloop + 1;
    }
  }

  ghost function Fresh(thr: seq<int>, blocks: nat): seq<int> {
    if |thr| <= blocks then thr + seq(blocks - |thr|, _ => -1) else thr
  }

  // After refine_states: the partition is sound, (w, c) is settled.
  lemma AfterRefine(m: Net, num: map<Letter, int>, d: Delta, cls: seq<int>, thr1: seq<int>, w: int, c: int, X: set<int>,
                    cls': seq<int>, blocks: nat)
    requires Deterministic(m) && Encodes(m, num, d) && (Trim(m) ==> Justified(m, cls)) && FinalsAgree(m, cls)
    requires Separated(d, cls, thr1) && 0 <= w < |thr1| <= blocks && 0 <= c && thr1[w] == c - 1
    requires IsPreimage(d, cls, w, c, X) && IsSplit(cls, |thr1|, X, cls') && ClassesOK(cls', blocks)
    ensures Separated(d, cls', Fresh(thr1[w := c], blocks))
    ensures (Trim(m) ==> Justified(m, cls')) && FinalsAgree(m, cls')
  {
    SplitStep(d, cls, thr1, w, c, X, cls', Fresh(thr1[w := c], blocks));
    SplitKeepsFinals(m, cls, |thr1|, X, cls');
    if Trim(m) {
      SplitJustified(m, num, d, cls, w, c, X, cls', |thr1|);
    }
  }

  lemma LinkedClasses(p: Partition)
    requires p.Linked()
    ensures ClassesOK(Groups(p.E[..]), p.pNext)
  {
    hide AgendaOK, ChainOK, InChain, InvOK;
    GroupsInRange(p.E[..], p.P[..], p.lists);
  }

  lemma InUseCursor(p: Partition, sp: Splitter, thr: seq<int>, w: int, size: nat, c: int, x: int)
    requires p.E.Length == sp.trans.Length && InUse(p, sp, thr, w, size, c) && 0 <= x < p.E.Length && p.E[x].group == w
    ensures CursorAt(sp.trans[x], thr[w], thr[w] + 1)
  {
    InUseCursorFull(p, sp, thr, w, size, c, x);
    CursorWeaken(sp.trans[x], thr[w], c, thr[w] + 1);
  }

  lemma InUseCursorFull(p: Partition, sp: Splitter, thr: seq<int>, w: int, size: nat, c: int, x: int)
    requires p.E.Length == sp.trans.Length && InUse(p, sp, thr, w, size, c) && 0 <= x < p.E.Length && p.E[x].group == w
    ensures CursorAt(sp.trans[x], thr[w], c)
  {
    assert x in Members(p.E[..], w);
    assert x in Elements(sp.tempGroup[..size]);
    var i :| 0 <= i < size && sp.tempGroup[..size][i] == x;
  }

  lemma AgendasBelow(p: Partition)
    requires p.Linked()
    ensures forall b :: 0 <= b < p.pNext ==> p.P[b].agenda < p.aNext
  {
    hide LinkOK, ChainOK, InChain, InvOK, AgendaOK;
    forall b | 0 <= b < p.pNext ensures p.P[b].agenda < p.aNext {
      if p.P[b].agenda != NULL {
        AgendaEntry(p.A[..], p.P[..], p.agenda, p.entries, p.aNext, p.pNext, b);
      }
    }
  }

  method Cut(p: Partition, sp: Splitter, w: int, size: nat, c: int, j: nat, nextSym: int,
             ghost thr1: seq<int>, ghost m: Net, ghost num: map<Letter, int>)
    returns (selfsplit: bool, ghost thr': seq<int>)
    requires Sound(p, sp, m, num) && Working(p, sp, thr1, w) && 0 <= c < INT_MAX && p.totalStates < p.n
    requires 0 <= w < |thr1| && InUse(p, sp, thr1[w := c], w, size, nextSym) && thr1[w] == c - 1
             && c < nextSym <= INT_MAX
    requires j <= sp.n && sp.tempMove.Length == sp.n && AllBelow(sp.tempMove[..j], sp.n) && NoDup(sp.tempMove[..j])
    requires IsPreimage(sp.d, Groups(p.E[..]), w, c, Elements(sp.tempMove[..j]))
    modifies p`pNext, p`lists, p`aNext, p`agenda, p`entries, p`chain, p`totalStates, p.E, p.P, p.A
    ensures p.totalStates <= p.n && (p.totalStates == p.n ==> Trim(m) ==> Reduced(m))
    ensures p.totalStates < p.n ==>
      && Sound(p, sp, m, num) && Working(p, sp, thr', if selfsplit then NULL else w)
      && (!selfsplit ==> InUse(p, sp, thr', w, size, nextSym) && thr'[w] == c)
  {
    hide LinkOK, AgendaOK, ChainOK, InChain, InvOK, CountOK, Encodes, Separated, CursorAt, InverseOK, Deterministic,
         Justified, FinalsAgree;
    ghost var cls, X := Groups(p.E[..]), Elements(sp.tempMove[..j]);
    ghost var a0, p0, e0 := p.A[..], p.P[..], p.E[..];
    ghost var k0 := p.aNext;
    forall x | 0 <= x < |cls| && cls[x] == w ensures CursorAt(sp.trans[x], c, c + 1) {
      InUseCursor(p, sp, thr1[w := c], w, size, nextSym, x);
    }
    AgendasBelow(p);
    selfsplit := p.RefineStates(sp.tempMove, j);
    if p.totalStates == p.n {
      if Trim(m) {
        SingletonsReduced(m, num, sp.d, cls, e0, w, c, X);
      }
      thr' := thr1;
    } else {
      thr' := Fresh(thr1[w := c], p.pNext);
      LinkedClasses(p);
      AfterRefine(m, num, sp.d, cls, thr1, w, c, X, Groups(p.E[..]), p.pNext);
      SplitKeepsSchedule(a0, p0, cls, thr1, sp.trans[..], w, k0, p.A[..], p.P[..], Groups(p.E[..]), thr', sp.trans[..],
                         X, c, selfsplit);
    }
  }

  // No state has a c-arc into the block: (w, c) is settled without a cut.
  lemma NothingToCut(p: Partition, sp: Splitter, w: int, c: int, thr1: seq<int>, m: Net, num: map<Letter, int>)
    requires Sound(p, sp, m, num) && Working(p, sp, thr1, w) && 0 <= c < INT_MAX
    requires 0 <= w < |thr1| && thr1[w] == c - 1 && IsPreimage(sp.d, Groups(p.E[..]), w, c, {})
    ensures Working(p, sp, thr1[w := c], w)
  {
    hide LinkOK, AgendaOK, ChainOK, InChain, InvOK, CountOK, Encodes, Separated, CursorAt, InverseOK, Deterministic,
         Justified, FinalsAgree;
    var cls := Groups(p.E[..]);
    TrivialSplit(cls, p.pNext);
    LinkedClasses(p);
    assert Fresh(thr1[w := c], p.pNext) == thr1[w := c];
    SplitStep(sp.d, cls, thr1, w, c, {}, cls, thr1[w := c]);
    UsingKeepsSchedule(p.A[..], p.P[..], cls, thr1, sp.trans[..], w, thr1[w := c], sp.trans[..]);
  }

  // The block in use has been used for all symbols.
  lemma BlockDone(p: Partition, sp: Splitter, thr: seq<int>, w: int, size: nat, m: Net, num: map<Letter, int>)
    requires Sound(p, sp, m, num) && Working(p, sp, thr, w) && InUse(p, sp, thr, w, size, INT_MAX)
    ensures Working(p, sp, thr[w := INT_MAX], NULL)
  {
    hide LinkOK, AgendaOK, ChainOK, InChain, InvOK, CountOK, Encodes, Separated, CursorAt, InverseOK, Deterministic,
         Justified, FinalsAgree;
    var cls, tr := Groups(p.E[..]), sp.trans[..];
    forall x | 0 <= x < |cls| && cls[x] == w ensures CursorAt(tr[x], thr[w], INT_MAX) {
      InUseCursorFull(p, sp, thr, w, size, INT_MAX, x);
    }
    CursorsLeaveNothing(sp.d, cls, tr, w, thr[w], INT_MAX);
    SkipSymbols(sp.d, cls, thr, w, INT_MAX + 1);
    UsingKeepsSchedule(p.A[..], p.P[..], cls, thr, tr, w, thr[w := INT_MAX], tr);
    assert BlockScheduled(p.A[..], p.P[..], cls, thr[w := INT_MAX], tr, w);
  }

  // Takes the first block off the agenda and prepares to split with it.
  method Take(p: Partition, sp: Splitter, ghost thr: seq<int>, ghost m: Net, ghost num: map<Letter, int>)
    returns (w: int, resume: bool, size: nat, minsym: int)
    requires Sound(p, sp, m, num) && Working(p, sp, thr, NULL) && p.agenda != NULL
    modifies p`agenda, p`currentW, p`entries, p`popped, p.P, sp.tempGroup, sp.trans
    ensures Sound(p, sp, m, num) && Working(p, sp, thr, w) && InUse(p, sp, thr, w, size, minsym)
    ensures 0 <= minsym && p.popped == old(p.popped) + 1
  {
    hide LinkOK, AgendaOK, ChainOK, InChain, InvOK, CountOK, Encodes, Separated, CursorAt, InverseOK, Deterministic,
         Justified, FinalsAgree;
    ghost var cls, p0, tr := Groups(p.E[..]), p.P[..], sp.trans[..];
    w, resume := p.PopAgenda();
    ghost var lo := thr[w];
    assert BlockScheduled(p.A[..], p0, cls, thr, tr, w);
    ListIsMembers(p.E[..], p.P[..], p.lists, w);
    forall x ensures x in p.lists[w] <==> 0 <= x < |cls| && cls[x] == w {
      assert x in Elements(p.lists[w]) <==> x in Members(p.E[..], w);
    }
    size, minsym := sp.Gather(p, w, resume, lo);
    PoppedKeepsSchedule(p.A[..], p0, cls, thr, tr, w, p.P[..]);
    UsingKeepsSchedule(p.A[..], p.P[..], cls, thr, tr, w, thr, sp.trans[..]);
  }

  // One round of the agenda loop.
  method UseBlock(p: Partition, sp: Splitter, ghost thr: seq<int>, ghost m: Net, ghost num: map<Letter, int>)
    returns (ghost thr': seq<int>)
    requires Sound(p, sp, m, num) && Working(p, sp, thr, NULL) && p.agenda != NULL && p.totalStates < p.n
    modifies p`pNext, p`lists, p`aNext, p`agenda, p`entries, p`chain, p`totalStates, p`currentW, p`popped, p.E, p.P, p.A
    modifies sp`mainloop, sp.memo, sp.tempMove, sp.tempGroup, sp.trans
    ensures p.totalStates <= p.n && (p.totalStates == p.n ==> Trim(m) ==> Reduced(m))
    ensures p.totalStates < p.n ==>
      Sound(p, sp, m, num) && Working(p, sp, thr', NULL) && p.popped == old(p.popped) + 1 <= p.aNext
  {
    hide LinkOK, AgendaOK, ChainOK, InChain, InvOK, CountOK, Encodes, Separated, CursorAt, InverseOK, Deterministic,
         Justified, FinalsAgree, Working, Reduced, Trim, NoDup, AllBelow;
    var w, resume, size, minsym := Take(p, sp, thr, m, num);
    thr' := thr;
    while minsym != INT_MAX
      invariant p.totalStates < p.n && Sound(p, sp, m, num) && Working(p, sp, thr', w)
      invariant InUse(p, sp, thr', w, size, minsym) && 0 <= minsym <= INT_MAX && p.popped == old(p.popped) + 1
      decreases INT_MAX - minsym
    {
      var j, nextSym, thr1 := Predecessors(p, sp, w, size, minsym, thr', m, num);
      if j == 0 {
        assert Elements(sp.tempMove[..j]) == {};
        NothingToCut(p, sp, w, minsym, thr1, m, num);
        thr' := thr1[w := minsym];
      } else {
        var selfsplit;
        selfsplit, thr' := Cut(p, sp, w, size, minsym, j, nextSym, thr1, m, num);
        if selfsplit || p.totalStates == p.n {
          return;
        }
      }
      minsym := nextSym;
    }
    BlockDone(p, sp, thr', w, size, m, num);
    thr' := thr'[w := INT_MAX];
  }

  // The agenda loop has run dry: the classes are a congruence.
  lemma Congruence(p: Partition, sp: Splitter, thr: seq<int>, m: Net, num: map<Letter, int>)
    requires Sound(p, sp, m, num) && Working(p, sp, thr, NULL) && p.agenda == NULL
    ensures FinalsAgree(m, Groups(p.E[..]))
    ensures forall q, r, l :: 0 <= q < m.states && 0 <= r < m.states && Groups(p.E[..])[q] == Groups(p.E[..])[r] ==>
              SameStep(m, Groups(p.E[..]), q, r, l)
  {
    hide LinkOK, ChainOK, InChain, InvOK, CountOK, CursorAt, InverseOK, Deterministic, Justified, FinalsAgree, Encodes,
         Separated, AgendaOK;
    var cls := Groups(p.E[..]);
    forall b | 0 <= b < |thr| ensures thr[b] == INT_MAX {
      assert BlockScheduled(p.A[..], p.P[..], cls, thr, sp.trans[..], b);
      if p.P[b].agenda != NULL {
        AgendaEntry(p.A[..], p.P[..], p.agenda, p.entries, p.aNext, p.pNext, b);
      }
    }
    forall q, r, l | 0 <= q < m.states && 0 <= r < m.states && cls[q] == cls[r] ensures SameStep(m, cls, q, r, l) {
      CongruenceStep(m, num, sp.d, cls, thr, q, r, l);
    }
  }

  lemma CongruenceStep(m: Net, num: map<Letter, int>, d: Delta, cls: seq<int>, thr: seq<int>, q: int, r: int, l: Letter)
    requires Encodes(m, num, d) && Separated(d, cls, thr) && |cls| == m.states && SymbolsBelow(d, INT_MAX)
    requires forall b :: 0 <= b < |thr| ==> thr[b] == INT_MAX
    requires 0 <= q < m.states && 0 <= r < m.states && cls[q] == cls[r]
    ensures SameStep(m, cls, q, r, l)
  {
    assert Next(m.arcs, q, l) == if l in num then Succ(d, q, num[l]) else -1;
    assert Next(m.arcs, r, l) == if l in num then Succ(d, r, num[l]) else -1;
    if l in num {
      NothingPending(d, cls, thr, q, r, num[l]);
    }
  }

  // k is what minimization has to make of m.
  ghost predicate IsMinimized(m: Net, k: Net) {
    && Deterministic(k) && SameLanguage(m, k)
    && (Trim(m) ==> Reduced(k) && Trim(k))
    && (AllReachable(m) ==> AllReachable(k)) && SameStates(m, k)
  }

  // A minimized net has the fewest states of all deterministic nets for its language.
  lemma MinimizedIsSmallest(m: Net, k: Net, other: Net)
    requires IsMinimized(m, k) && Trim(m) && AllReachable(m)
    requires Deterministic(other) && SameLanguage(m, other)
    ensures k.states <= other.states
  {
    forall w ensures Accepts(k, w) <==> Accepts(other, w) {
      assert Accepts(m, w) <==> Accepts(k, w);
      assert Accepts(m, w) <==> Accepts(other, w);
    }
    ReducedIsSmallest(k, other);
  }

  lemma QuotientMinimized(t: seq<Line>, n: nat, rep: seq<bool>, num: seq<int>, k: nat, cls: seq<int>)
    requires IsTable(t, n) && Deterministic(Meaning(t, n)) && QuotientMap(Meaning(t, n), rep, num, k) && k <= n
    requires |cls| == n && (Trim(Meaning(t, n)) ==> Justified(Meaning(t, n), cls))
    requires forall p, q :: 0 <= p < n && 0 <= q < n && cls[p] == cls[q] ==> num[p] == num[q]
    ensures IsTable(Rebuilt(t, |t|, rep, num), k)
    ensures IsMinimized(Meaning(t, n), Meaning(Rebuilt(t, |t|, rep, num), k))
  {
    hide Deterministic, IsQuotient, SameStates;
    var m, r := Meaning(t, n), Meaning(Rebuilt(t, |t|, rep, num), k);
    RebuiltIsTable(t, n, rep, num, k);
    TableIsClosed(t, n);
    TableIsClosed(Rebuilt(t, |t|, rep, num), k);
    RebuiltQuotient(t, n, rep, num, k);
    QuotientLanguage(m, r, num);
    QuotientTrim(m, r, num);
    QuotientStates(m, r, num);
    if Trim(m) {
      forall p, q | 0 <= p < m.states && 0 <= q < m.states && num[p] != num[q] ensures Inequivalent(m, p, q) {
        assert cls[p] != cls[q];
      }
      QuotientReduced(m, r, num);
    }
  }

  method RebuildMachine(p: Partition, fsm: array<Line>, finals: seq<bool>, ghost t: seq<Line>, ghost m: Net)
    returns (lines: nat)
    requires p.Linked() && p.Settled() && p.n == |finals| == m.states && m == Meaning(t, p.n) && p.n > 0
    requires IsTable(t, p.n) && Deterministic(m) && fsm.Length > |t| && fsm[..|t|] == t && fsm[|t|].state == -1
    requires FinalsOn(t, finals)
    requires FinalsAgree(m, Groups(p.E[..])) && (Trim(m) ==> Justified(m, Groups(p.E[..])))
    requires forall q, r, l :: 0 <= q < m.states && 0 <= r < m.states && Groups(p.E[..])[q] == Groups(p.E[..])[r] ==>
               SameStep(m, Groups(p.E[..]), q, r, l)
    modifies p.P, fsm
    ensures lines < fsm.Length && fsm[lines] == SENTINEL
    ensures IsTable(fsm[..lines], p.totalStates) && IsMinimized(m, Meaning(fsm[..lines], p.totalStates))
  {
    hide LinkOK, AgendaOK, ChainOK, InChain, InvOK, CountOK, Justified, IsMinimized, Numbered, FinalsAgree, QuotientMap;
    ghost var cls := Groups(p.E[..]);
    ClearCounts(p);
    var newLines, order := NumberClasses(p, fsm, t);
    lines := Compact(p, fsm, finals, t);
    ghost var rep, num := Reps(p.E[..], p.P[..]), Numbers(p.E[..], p.P[..]);
    NumberedMap(m, p.E[..], p.P[..], order, cls);
    QuotientMinimized(t, p.n, rep, num, p.totalStates, cls);
  }

  // fsm_count: the lines before the sentinel, and whether a state is final.
  method FsmCount(fsm: array<Line>, ghost t: seq<Line>, ghost n: nat) returns (linecount: nat, finalcount: nat)
    requires IsTable(t, n) && fsm.Length > |t| && fsm[..|t|] == t && fsm[|t|].state == -1
    ensures linecount == |t| && (finalcount == 0 <==> FinalsOf(t) == {})
  {
    linecount, finalcount := 0, 0;
    var oldstate := -1;
    while fsm[linecount].state != -1
      invariant linecount <= |t| && (finalcount == 0 <==> FinalsOf(t[..linecount]) == {})
      invariant oldstate == if linecount > 0 then t[linecount - 1].state else -1
      decreases |t| - linecount
    {
      var l := fsm[linecount];
      assert l == t[linecount] && LineOK(l, n);
      assert t[..linecount + 1] == t[..linecount] + [l];
      FinalsSnoc(t[..linecount], l);
      if l.state != oldstate {
        if l.final {
          finalcount := finalcount + 1;
        }
        oldstate := l.state;
      } else if l.final {
        assert linecount > 0 && t[linecount - 1].final;
        FinalLine(t[..linecount], linecount - 1);
      }
      linecount := linecount + 1;
    }
    TableLine(t, n, linecount);
    assert t[..linecount] == t;
  }

  lemma FinalLine(t: seq<Line>, i: nat)
    requires i < |t| && t[i].final
    ensures t[i].state in FinalsOf(t)
  {
  }

  lemma NoFinals(t: seq<Line>)
    requires t == []
    ensures FinalsOf(t) == {}
  {
  }

  lemma FinalsTable(t: seq<Line>, n: nat, finals: seq<bool>, i: nat)
    requires IsTable(t, n) && |finals| == n && FinalSet(finals) == FinalsOf(t) && i < |t|
    ensures 0 <= t[i].state < n && finals[t[i].state] == t[i].final
  {
    assert LineOK(t[i], n);
    assert finals[t[i].state] <==> t[i].state in FinalSet(finals);
    if t[i].state in FinalsOf(t) {
      var j :| 0 <= j < |t| && t[j].final && t[j].state == t[i].state;
    }
    if t[i].final {
      FinalLine(t, i);
    }
  }

  // The finals table of sigma_to_pairs.
  method CollectFinals(t: seq<Line>, n: nat) returns (finals: seq<bool>, numFinals: nat)
    requires IsTable(t, n)
    ensures |finals| == n && FinalSet(finals) == FinalsOf(t) && numFinals == |FinalSet(finals)|
    ensures FinalsOn(t, finals)
  {
    hide IsTable, FinalsOf, FinalSet;
    finals, numFinals := seq(n, _ => false), 0;
    NoFinals(t[..0]);
    NoneFinal(n);
    for i := 0 to |t|
      invariant |finals| == n && FinalSet(finals) == FinalsOf(t[..i]) && numFinals == |FinalSet(finals)|
    {
      TableLine(t, n, i);
      assert t[..i + 1] == t[..i] + [t[i]];
      FinalsSnoc(t[..i], t[i]);
      var s := t[i].state;
      OneMoreFinal(finals, s);
      if t[i].final && !finals[s] {
        numFinals := numFinals + 1;
        finals := finals[s := true];
      }
    }
    assert t[..|t|] == t;
    forall i | 0 <= i < |t| ensures 0 <= t[i].state < n && finals[t[i].state] == t[i].final {
      FinalsTable(t, n, finals, i);
    }
  }

  // fsm_empty_set: one non-final start state.
  lemma EmptySet(m: Net)
    requires Deterministic(m) && m.finals == {}
    ensures IsTable([EMPTY_LINE], 1) && IsMinimized(m, Meaning([EMPTY_LINE], 1))
  {
    var t := [EMPTY_LINE];
    var k := Meaning(t, 1);
    assert t[0] == EMPTY_LINE && LineOK(t[0], 1);
    assert HasLine(t, 0);
    TableIsClosed(t, 1);
    assert k.arcs == {} && k.starts == {0} && k.finals == {};
    assert 0 < m.states;
    assert !Trim(m) by {
      assert !Productive(m, 0);
    }
    assert Path(k.arcs, 0, [], 0);
    assert Reaches(k.arcs, 0, 0) && Reachable(k, 0);
    NoneProductive(m, k);
  }

  lemma SameNet(m: Net)
    requires Deterministic(m) && (Trim(m) ==> Reduced(m))
    ensures IsMinimized(m, m)
  {
    SameStatesSelf(m);
  }

  // The first partition meets the invariant of the agenda loop.
  lemma FirstPartition(p: Partition, sp: Splitter, m: Net, num: map<Letter, int>, finals: seq<bool>)
    returns (thr: seq<int>)
    requires p.Linked() && p.Settled() && sp.Ready() && p.n == sp.n == m.states == |finals|
    requires Deterministic(m) && Encodes(m, num, sp.d) && m.finals == FinalSet(finals)
    requires FirstQueue(p, finals)
    ensures Sound(p, sp, m, num) && Working(p, sp, thr, NULL)
  {
    hide LinkOK, ChainOK, InChain, InvOK, CountOK, CursorAt, InverseOK, Encodes, Deterministic;
    var cls, P, k := Groups(p.E[..]), p.P[..], p.pNext;
    thr := seq(k, b requires 0 <= b < k <= |P| => if P[b].agenda == NULL then INT_MAX else -1);
    LinkedClasses(p);
    forall x | 0 <= x < |cls| ensures thr[cls[x]] == -1 {
      assert x in Members(p.E[..], cls[x]);
    }
    DeltaOfEncodes(m, num, sp.d);
    FirstClasses(m, sp.d, cls, thr);
    forall b | 0 <= b < |thr| ensures BlockScheduled(p.A[..], p.P[..], cls, thr, sp.trans[..], b) {
    }
  }

  lemma DeltaOfEncodes(m: Net, num: map<Letter, int>, d: Delta)
    requires Encodes(m, num, d)
    ensures DeltaOK(d, m.states)
  {
  }

  // The loop over the agenda.  done: every state is a class of its own.
  method AgendaLoop(p: Partition, sp: Splitter, ghost thr0: seq<int>, ghost m: Net, ghost num: map<Letter, int>)
    returns (ghost thr: seq<int>)
    requires Sound(p, sp, m, num) && Working(p, sp, thr0, NULL) && p.totalStates < p.n
    modifies p, p.E, p.P, p.A, sp`mainloop, sp.memo, sp.tempMove, sp.tempGroup, sp.trans
    ensures p.totalStates <= p.n && (p.totalStates == p.n ==> Trim(m) ==> Reduced(m))
    ensures p.totalStates < p.n ==> Sound(p, sp, m, num) && Working(p, sp, thr, NULL) && p.agenda == NULL
  {
    hide LinkOK, AgendaOK, ChainOK, InChain, InvOK, CountOK, Encodes, Separated, CursorAt, InverseOK, Deterministic,
         Justified, FinalsAgree;
    thr := thr0;
    while p.agenda != NULL
      invariant p.totalStates < p.n && Sound(p, sp, m, num) && Working(p, sp, thr, NULL)
      decreases 2 * p.n - p.popped
    {
      thr := UseBlock(p, sp, thr, m, num);
      if p.totalStates == p.n {
        return;
      }
    }
  }

  // fsm_minimize_hop.
  method MinimizeHop(fsm: array<Line>, n: nat, ghost t: seq<Line>) returns (out: array<Line>, states: nat, lines: nat)
    requires IsTable(t, n) && Deterministic(Meaning(t, n)) && |Letters(ArcsOf(t))| < INT_MAX
    requires fsm.Length > |t| && fsm[..|t|] == t && fsm[|t|].state == -1
    modifies fsm
    ensures (out == fsm || fresh(out)) && lines < out.Length && out[lines].state == -1
    ensures IsTable(out[..lines], states) && IsMinimized(Meaning(t, n), Meaning(out[..lines], states))
    ensures FinalsOf(t) == {} ==> states == 1
  {
    hide IsMinimized, Encodes, CountOK;
    ghost var m := Meaning(t, n);
    assert 0 < n;
    var linecount, finalcount := FsmCount(fsm, t, n);
    if finalcount == 0 {
      EmptySet(m);
      out := new Line[2][EMPTY_LINE, SENTINEL];
      assert out[..1] == [EMPTY_LINE];
      return out, 1, 1;
    }
    out := fsm;
    states, lines := HopTable(fsm, fsm[..linecount], n);
  }

  method HopTable(fsm: array<Line>, t: seq<Line>, n: nat) returns (states: nat, lines: nat)
    requires IsTable(t, n) && Deterministic(Meaning(t, n)) && |Letters(ArcsOf(t))| < INT_MAX && n > 0
             && FinalsOf(t) != {}
    requires fsm.Length > |t| && fsm[..|t|] == t && fsm[|t|].state == -1
    modifies fsm
    ensures lines < fsm.Length && fsm[lines].state == -1
    ensures IsTable(fsm[..lines], states) && IsMinimized(Meaning(t, n), Meaning(fsm[..lines], states))
  {
    hide IsMinimized, Encodes, CountOK, Deterministic, InverseOK, LinkOK, AgendaOK, ChainOK, InChain, InvOK, QueuedFull,
         Numbering, IsTable, Labels;
    TableLines(t, n);
    var num, pairs, epsilon := SigmaToPairs(t, n);
    var finals, numFinals := CollectFinals(t, n);
    var p := new Partition(n, 2 * n);
    InitPE(p, finals, numFinals);
    if p.totalStates == n {
      BailOut(t, n, p, finals);
      states, lines := n, |t|;
    } else {
      states, lines := WithInverse(p, fsm, finals, t, num, pairs);
    }
  }

  // The inverse table is made and the partition refined with it.
  method WithInverse(p: Partition, fsm: array<Line>, finals: seq<bool>, t: seq<Line>, num: map<Letter, int>,
                     ghost pairs: seq<Letter>)
    returns (states: nat, lines: nat)
    requires IsTable(t, p.n) && Deterministic(Meaning(t, p.n)) && |Letters(ArcsOf(t))| < INT_MAX && p.n > 0
    requires fsm.Length > |t| && fsm[..|t|] == t && fsm[|t|].state == -1
    requires p.Linked() && p.Settled() && p.totalStates < p.n == |finals| && forall x :: 0 <= x < p.n ==> p.inv[x] == 0
    requires Numbering(num, pairs) && forall l :: l in num <==> Labels(t, |t|, l)
    requires FinalSet(finals) == FinalsOf(t)
    requires FinalsOn(t, finals)
    requires FirstQueue(p, finals)
    modifies p, p.E, p.P, p.A, fsm
    ensures lines < fsm.Length && fsm[lines].state == -1
    ensures IsTable(fsm[..lines], states) && IsMinimized(Meaning(t, p.n), Meaning(fsm[..lines], states))
  {
    hide IsMinimized, Encodes, CountOK, Deterministic, InverseOK, LinkOK, AgendaOK, ChainOK, InChain, InvOK, QueuedFull,
         Numbering, IsTable, Labels;
    var trans := new TransArray[p.n](_ => TransArray([], 0));
    DeterministicIsFunctional(Meaning(t, p.n));
    NumberOfLetters(t, num, pairs);
    GenerateInverse(p, trans, t, num, pairs);
    states, lines := Refined(p, trans, fsm, finals, t, num, pairs);
  }

  lemma DeterministicIsFunctional(m: Net)
    requires Deterministic(m)
    ensures Functional(m.arcs)
  {
  }

  // Final and non-final states are one state each: nothing to merge.
  lemma BailOut(t: seq<Line>, n: nat, p: Partition, finals: seq<bool>)
    requires IsTable(t, n) && Deterministic(Meaning(t, n)) && p.n == n == |finals| && p.Linked() && p.totalStates == n
    requires FinalSet(finals) == FinalsOf(t)
    requires forall x :: 0 <= x < n ==> p.E[x].group == Side(finals, x)
    ensures IsMinimized(Meaning(t, n), Meaning(t, n))
  {
    hide LinkOK, AgendaOK, ChainOK, InChain, InvOK;
    var m, g := Meaning(t, n), Groups(p.E[..]);
    FullRangeNoDup(g);
    forall a, b | 0 <= a < n && 0 <= b < n && a != b ensures Inequivalent(m, a, b) {
      assert g[if a < b then a else b] != g[if a < b then b else a];
      assert a in FinalSet(finals) <==> finals[a];
      assert b in FinalSet(finals) <==> finals[b];
      assert AcceptsFrom(m, a, []) != AcceptsFrom(m, b, []);
    }
    SameNet(m);
  }

  method Refined(p: Partition, trans: array<TransArray>, fsm: array<Line>, finals: seq<bool>, t: seq<Line>,
                 num: map<Letter, int>, ghost pairs: seq<Letter>) returns (states: nat, lines: nat)
    requires IsTable(t, p.n) && Deterministic(Meaning(t, p.n)) && |Letters(ArcsOf(t))| < INT_MAX && p.n > 0
    requires fsm.Length > |t| && fsm[..|t|] == t && fsm[|t|].state == -1
    requires p.Linked() && p.Settled() && p.totalStates < p.n == |finals| == trans.Length
    requires InverseOK(trans[..], DeltaOf(t, num, |t|)) && Numbering(num, pairs) && |pairs| < INT_MAX
    requires forall l :: l in num <==> Labels(t, |t|, l)
    requires FinalSet(finals) == FinalsOf(t) && FinalsOn(t, finals) && FirstQueue(p, finals)
    modifies p, p.E, p.P, p.A, trans, fsm
    ensures lines < fsm.Length && fsm[lines].state == -1
    ensures IsTable(fsm[..lines], states) && IsMinimized(Meaning(t, p.n), Meaning(fsm[..lines], states))
  {
    hide LinkOK, AgendaOK, ChainOK, InChain, InvOK, CountOK, Encodes, Separated, CursorAt, InverseOK, Justified,
         IsMinimized, FinalsAgree, FinalsOn, IsTable, Labels, Deterministic, FinalSet, FinalsOf, Letters,
         FirstQueue;
    ghost var m, d := Meaning(t, p.n), DeltaOf(t, num, |t|);
    DeterministicIsFunctional(m);
    DeltaEncodes(t, p.n, num, pairs);
    DeltaOfEncodes(m, num, d);
    var sp := new Splitter(p.n, trans, d);
    ghost var thr := FirstPartition(p, sp, m, num, finals);
    thr := AgendaLoop(p, sp, thr, m, num);
    states, lines := p.n, |t|;
    if p.totalStates == p.n {
      SameNet(m);
    } else {
      Congruence(p, sp, thr, m, num);
      states := p.totalStates;
      lines := RebuildMachine(p, fsm, finals, t, m);
    }
  }
}
