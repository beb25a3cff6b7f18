// init_PE (minimize.c): the first partition, final against non-final states,
// with both blocks on the agenda.

module InitialPartition {
  import opened Nets
  import opened Counting
  import opened Blocks
  import opened Refine

  const NONFINAL := 0
  const FINAL := 1

  // Elements i.. are still untouched, the others sit on the two lists in
  // ascending order.
  ghost predicate Enlisted(E: seq<Elem>, P: seq<Block>, finals: seq<bool>, i: nat, lists: seq<seq<int>>) {
    && i <= |E| == |finals| && |lists| == 2 <= |P|
    && ListOK(E, P, lists[0], 0) && ListOK(E, P, lists[1], 1)
    && AllBelow(lists[0], i) && AllBelow(lists[1], i)
    && Grouping(E, finals, i) && Placed(E, finals, i, lists)
  }

  ghost function Side(finals: seq<bool>, x: int): int
    requires 0 <= x < |finals|
  {
    if finals[x] then FINAL else NONFINAL
  }

  ghost predicate Grouping(E: seq<Elem>, finals: seq<bool>, i: nat)
    requires i <= |E| == |finals|
  {
    && (forall x :: 0 <= x < i ==> E[x].group == Side(finals, x) && E[x].inv == 0)
    && (forall x :: i <= x < |E| ==> E[x] == Elem(NULL, NULL, NULL, 0))
  }

  ghost predicate Placed(E: seq<Elem>, finals: seq<bool>, i: nat, lists: seq<seq<int>>)
    requires i <= |E| == |finals| && |lists| == 2
  {
    forall x :: 0 <= x < i ==> x in lists[Side(finals, x)]
  }

  ghost function LastOf(l: seq<int>): int {
    if l == [] then NULL else l[|l| - 1]
  }

  ghost predicate Enlisting(E: seq<Elem>, E': seq<Elem>, i: nat, b: int, last: int) {
    && i < |E| == |E'| && E'[i] == Elem(b, last, NULL, 0)
    && forall y :: 0 <= y < |E| && y != i ==> E'[y] == if y == last then E[y].(right := i) else E[y]
  }

  lemma SnocList(E: seq<Elem>, P: seq<Block>, l: seq<int>, i: nat, b: int, E': seq<Elem>, P': seq<Block>)
    requires 0 <= b < |P| == |P'| && ListOK(E, P, l, b) && AllBelow(l, i)
    requires Enlisting(E, E', i, b, LastOf(l))
    requires P'[b].last == i && P'[b].first == (if l == [] then i else P[b].first)
    ensures ListOK(E', P', l + [i], b) && AllBelow(l + [i], i + 1)
  {
    var l' := l + [i];
    forall k | 0 <= k < |l'| ensures E'[l'[k]].group == b {
      assert k < |l| ==> E[l[k]].group == b;
    }
    forall j, k | 0 <= j < k < |l'| && k == j + 1 ensures E'[l'[j]].right == l'[k] && E'[l'[k]].left == l'[j] {
      if k < |l| {
        assert E[l[j]].right == l[k] && E[l[k]].left == l[j];
        assert l[j] != l[|l| - 1];
      }
    }
  }

  lemma KeepList(E: seq<Elem>, P: seq<Block>, l: seq<int>, i: nat, c: int, b: int, last: int, E': seq<Elem>,
                 P': seq<Block>)
    requires 0 <= c < |P| == |P'| && c != b && ListOK(E, P, l, c) && AllBelow(l, i)
    requires Enlisting(E, E', i, b, last) && (last == NULL || (0 <= last < |E| && E[last].group == b))
    requires P'[c] == P[c]
    ensures ListOK(E', P', l, c)
  {
  }

  lemma EnlistNext(E: seq<Elem>, P: seq<Block>, finals: seq<bool>, i: nat, lists: seq<seq<int>>,
                   E': seq<Elem>, P': seq<Block>, b: int)
    requires Enlisted(E, P, finals, i, lists) && i < |E| && b == Side(finals, i)
    requires Enlisting(E, E', i, b, LastOf(lists[b]))
    requires |P'| == |P| && P'[b].last == i && P'[b].first == (if lists[b] == [] then i else P[b].first)
    requires forall c :: 0 <= c < |P| && c != b ==> P'[c] == P[c]
    ensures Enlisted(E', P', finals, i + 1, lists[b := lists[b] + [i]])
  {
    hide ListOK, Placed, Enlisting, Grouping, AllBelow, LastOf;
    SnocList(E, P, lists[b], i, b, E', P');
    LastInList(E, P, lists[b], b);
    KeepList(E, P, lists[1 - b], i, 1 - b, b, LastOf(lists[b]), E', P');
    AllBelowMore(lists[1 - b], i);
    LastBelow(lists[b], i);
    GroupNext(E, finals, i, b, LastOf(lists[b]), E');
    PlaceNext(E, finals, i, lists, b, E');
  }

  lemma AllBelowMore(l: seq<int>, i: nat)
    requires AllBelow(l, i)
    ensures AllBelow(l, i + 1)
  {
  }

  lemma LastBelow(l: seq<int>, i: nat)
    requires AllBelow(l, i)
    ensures LastOf(l) < i
  {
  }

  lemma GroupNext(E: seq<Elem>, finals: seq<bool>, i: nat, b: int, last: int, E': seq<Elem>)
    requires i < |E| == |finals| && Grouping(E, finals, i) && b == Side(finals, i)
    requires Enlisting(E, E', i, b, last) && last < i
    ensures |E'| == |E| && Grouping(E', finals, i + 1)
  {
  }

  lemma LastInList(E: seq<Elem>, P: seq<Block>, l: seq<int>, b: int)
    requires 0 <= b < |P| && ListOK(E, P, l, b)
    ensures LastOf(l) == NULL || (0 <= LastOf(l) < |E| && E[LastOf(l)].group == b)
  {
  }

  lemma PlaceNext(E: seq<Elem>, finals: seq<bool>, i: nat, lists: seq<seq<int>>, b: int, E': seq<Elem>)
    requires i < |E| == |finals| == |E'| && |lists| == 2 && b == Side(finals, i)
    requires Placed(E, finals, i, lists)
    ensures Placed(E', finals, i + 1, lists[b := lists[b] + [i]])
  {
    var l' := lists[b] + [i];
    forall x | 0 <= x < i + 1 ensures x in lists[b := l'][Side(finals, x)] {
      if x == i {
        assert l'[|lists[b]|] == i;
      } else {
        assert x in lists[Side(finals, x)];
        if Side(finals, x) == b {
          var k :| 0 <= k < |lists[b]| && lists[b][k] == x;
          assert l'[k] == x;
        }
      }
    }
  }

  lemma EnlistedLinks(E: seq<Elem>, P: seq<Block>, finals: seq<bool>, lists: seq<seq<int>>)
    requires Enlisted(E, P, finals, |E|, lists)
    ensures LinkOK(E, P, lists)
  {
    hide ListOK;
    forall b | 0 <= b < |lists| ensures ListOK(E, P, lists[b], b) {
      assert b == 0 || b == 1;
    }
  }

  lemma EnlistedCounts(E: seq<Elem>, finals: seq<bool>)
    requires |E| == |finals| && Grouping(E, finals, |E|)
    ensures Members(E, 1) == FinalSet(finals) && |Members(E, 0)| == |E| - |FinalSet(finals)|
  {
    BelowSize(|E|);
    assert Members(E, 1) == FinalSet(finals);
    assert Below(|E|) == Members(E, 0) + Members(E, 1);
    assert Members(E, 0) * Members(E, 1) == {};
  }

  lemma EnlistedClasses(E: seq<Elem>, finals: seq<bool>)
    requires |E| == |finals| && Grouping(E, finals, |E|)
    ensures Elements(Groups(E)) == (if Members(E, 0) == {} then {} else {0}) + (if Members(E, 1) == {} then {} else {1})
  {
    var g := Groups(E);
    forall b | b in g ensures b in {0, 1} && Members(E, b) != {} {
      var x :| 0 <= x < |g| && g[x] == b;
      assert x in Members(E, b);
    }
    forall b | Members(E, b) != {} ensures b in g {
      var x :| x in Members(E, b);
      assert g[x] == b;
    }
  }

  lemma {:induction false} ZeroWeight(inv: seq<nat>, s: set<int>, k: nat)
    requires k <= |inv| && forall x :: 0 <= x < |inv| ==> inv[x] == 0
    ensures Weight(inv, s, k) == 0
    decreases k
  {
    if k > 0 {
      ZeroWeight(inv, s, k - 1);
    }
  }

  // The doubly linked list E.
  method LinkStates(p: Partition, finals: seq<bool>)
    requires p.E.Length == p.n == |finals| && p.P.Length == p.n + 1 && p.n >= 1
    requires forall x :: 0 <= x < p.n ==> p.E[x] == Elem(NULL, NULL, NULL, 0)
    modifies p`lists, p.E, p.P
    ensures Enlisted(p.E[..], p.P[..], finals, p.n, p.lists)
    ensures forall c :: 0 <= c < p.P.Length ==> p.P[c] == old(p.P[c]).(first := p.P[c].first, last := p.P[c].last)
  {
    var lastF, lastNonF := NULL, NULL;
    p.lists := [[], []];
    assert Enlisted(p.E[..], p.P[..], finals, 0, p.lists);
    hide Enlisted;
    for i := 0 to p.n
      invariant |p.lists| == 2 && Enlisted(p.E[..], p.P[..], finals, i, p.lists)
      invariant forall c :: 0 <= c < p.P.Length ==> p.P[c] == old(p.P[c]).(first := p.P[c].first, last := p.P[c].last)
      invariant lastF == LastOf(p.lists[1])
      invariant lastNonF == LastOf(p.lists[0])
    {
      if finals[i] {
        Enlist(p, finals, i, FINAL, lastF);
        lastF := i;
      } else {
        Enlist(p, finals, i, NONFINAL, lastNonF);
        lastNonF := i;
      }
    }
  }

  method Enlist(p: Partition, ghost finals: seq<bool>, i: nat, b: int, last: int)
    requires p.P.Length == p.n + 1 && p.n >= 1 && i < p.E.Length
    requires |p.lists| == 2 && i < |finals| && Enlisted(p.E[..], p.P[..], finals, i, p.lists)
    requires b == Side(finals, i) && last == LastOf(p.lists[b])
    modifies p`lists, p.E, p.P
    ensures Enlisted(p.E[..], p.P[..], finals, i + 1, p.lists)
    ensures p.lists == old(p.lists)[b := old(p.lists)[b] + [i]]
    ensures forall c :: 0 <= c < p.P.Length ==> p.P[c] == old(p.P[c]).(first := p.P[c].first, last := p.P[c].last)
  {
    hide ListOK, Placed;
    ghost var e0, p0 := p.E[..], p.P[..];
    LastInList(e0, p0, p.lists[b], b);
    assert p.E[i] == Elem(NULL, NULL, NULL, 0);
    p.E[i] := p.E[i].(group := b, left := last);
    if i > 0 && last != NULL {
      p.E[last] := p.E[last].(right := i);
    }
    if last == NULL {
      p.P[b] := p.P[b].(first := i);
    }
    p.P[b] := p.P[b].(last := i);
    EnlistNext(e0, p0, finals, i, p.lists, p.E[..], p.P[..], b);
    p.lists := p.lists[b := p.lists[b] + [i]];
  }

  // The two blocks and their agenda entries, the final states first.
  method QueueBoth(p: Partition, numFinals: nat)
    requires p.P.Length == p.n + 1 && p.A.Length == 2 * p.n && 0 < numFinals <= p.n
    requires forall c :: 0 <= c <= p.n ==> p.P[c] == Block(NULL, NULL, NULL, NULL, NULL, 0, 0, 0, 0)
    modifies p, p.P, p.A
    ensures AgendaOK(p.A[..], p.P[..], p.agenda, p.entries, p.aNext, 2) && ChainOK(p.P[..], p.head, p.chain, 2)
    ensures p.pNext == 2 && p.aNext == p.totalStates == (if p.n == numFinals then 1 else 2)
    ensures p.popped + |p.entries| == p.aNext
    ensures FINAL in p.chain && (p.n > numFinals ==> NONFINAL in p.chain)
    ensures p.P[0].count == p.n - numFinals && p.P[1].count == numFinals
    ensures forall b :: 0 <= b < 2 ==> Quiet(p.P[b]) && p.P[b].inv == 0
    ensures p.P[FINAL].agenda == 0 && !p.A[0].resume
    ensures p.n > numFinals ==> p.P[NONFINAL].agenda == 1 && !p.A[1].resume
    ensures p.n == numFinals ==> p.P[NONFINAL].agenda == NULL
  {
    hide AgendaOK, ChainOK;
    p.P[NONFINAL] := p.P[NONFINAL].(count := p.n - numFinals);
    p.P[FINAL] := p.P[FINAL].(count := numFinals);
    p.pNext, p.popped := 2, 0;
    p.P[FINAL] := p.P[FINAL].(agenda := 0);
    p.A[0] := Entry(FINAL, NULL, false);
    p.aNext, p.agenda, p.head, p.totalStates := 1, 0, FINAL, 1;
    p.entries, p.chain := [0], [FINAL];
    OneQueued(p.A[..], p.P[..]);
    assert p.chain[0] == FINAL;
    if p.n - numFinals > 0 {
      QueueSecond(p);
    }
  }

  lemma OneQueued(A: seq<Entry>, P: seq<Block>)
    requires |A| > 0 && |P| >= 2 && A[0] == Entry(FINAL, NULL, false)
    requires P[FINAL].agenda == 0 && P[FINAL].next == NULL && P[NONFINAL].agenda == NULL
    ensures AgendaOK(A, P, 0, [0], 1, 2) && ChainOK(P, FINAL, [FINAL], 2)
  {
    assert [0][0] == 0;
  }

  method QueueSecond(p: Partition)
    requires p.P.Length == p.n + 1 && p.A.Length == 2 * p.n && 2 <= p.n
    requires p.A[0] == Entry(FINAL, NULL, false)
    requires p.P[FINAL].agenda == 0 && p.P[FINAL].next == NULL && p.P[NONFINAL].agenda == NULL
             && p.P[NONFINAL].next == NULL
    requires p.agenda == 0 && p.head == FINAL
    modifies p`aNext, p`totalStates, p`entries, p`chain, p.P, p.A
    ensures AgendaOK(p.A[..], p.P[..], p.agenda, p.entries, p.aNext, 2) && ChainOK(p.P[..], p.head, p.chain, 2)
    ensures |p.entries| == p.aNext == p.totalStates == 2 && FINAL in p.chain && NONFINAL in p.chain
    ensures forall b :: 0 <= b < p.P.Length ==> p.P[b] == old(p.P[b]).(agenda := p.P[b].agenda, next := p.P[b].next)
    ensures p.P[FINAL].agenda == 0 && !p.A[0].resume && p.P[NONFINAL].agenda == 1 && !p.A[1].resume
  {
    hide AgendaOK, ChainOK;
    p.P[NONFINAL] := p.P[NONFINAL].(agenda := 1);
    p.A[1] := Entry(NONFINAL, NULL, false);
    p.aNext, p.totalStates := 2, 2;
    p.A[0] := p.A[0].(next := 1);
    p.P[FINAL] := p.P[FINAL].(next := NONFINAL);
    p.entries, p.chain := [0, 1], [FINAL, NONFINAL];
    assert p.chain[0] == FINAL && p.chain[1] == NONFINAL;
    TwoQueued(p.A[..], p.P[..]);
  }

  lemma TwoQueued(A: seq<Entry>, P: seq<Block>)
    requires |A| >= 2 && |P| >= 2 && A[0] == Entry(FINAL, 1, false) && A[1] == Entry(NONFINAL, NULL, false)
    requires P[FINAL].agenda == 0 && P[NONFINAL].agenda == 1 && P[FINAL].next == NONFINAL && P[NONFINAL].next == NULL
    ensures AgendaOK(A, P, 0, [0, 1], 2, 2) && ChainOK(P, FINAL, [FINAL, NONFINAL], 2)
  {
    var entries, chain := [0, 1], [FINAL, NONFINAL];
    assert entries[0] == 0 && entries[1] == 1;
    assert chain[0] == FINAL && chain[1] == NONFINAL;
  }

  method InitPE(p: Partition, finals: seq<bool>, numFinals: nat)
    requires p.E.Length == p.n == |finals| && p.P.Length == p.n + 1 && p.A.Length == 2 * p.n && p.n >= 1
    requires numFinals == |FinalSet(finals)| > 0
    requires forall x :: 0 <= x < p.n ==> p.E[x] == Elem(NULL, NULL, NULL, 0)
    requires forall c :: 0 <= c <= p.n ==> p.P[c] == Block(NULL, NULL, NULL, NULL, NULL, 0, 0, 0, 0)
    modifies p, p.E, p.P, p.A
    ensures p.Linked() && p.Settled()
    ensures FirstQueue(p, finals) && p.inv == seq(p.n, _ => 0)
  {
    hide AgendaOK, ChainOK, ListOK, LinkOK, Placed, CountOK, Enlisted, InChain, InvOK, QueuedFull, FirstQueue;
    BelowSize(p.n);
    assert FinalSet(finals) <= Below(p.n);
    SubsetSize(FinalSet(finals), Below(p.n));
    QueueBoth(p, numFinals);
    ghost var p0 := p.P[..];
    LinkStates(p, finals);
    p.inv := seq(p.n, _ => 0);
    InitLinked(p, finals, numFinals, p0);
    InitQueued(p, finals, numFinals);
  }

  // Two blocks, non-final and final states, all of them queued afresh.
  ghost predicate FirstQueue(p: Partition, finals: seq<bool>)
    reads p, p.E, p.P, p.A
  {
    && p.E.Length == p.n == |finals| && p.pNext == 2 <= p.P.Length
    && (forall x :: 0 <= x < p.n ==> p.E[x].group == Side(finals, x))
    && (forall b :: 0 <= b < 2 && Members(p.E[..], b) != {} ==> p.P[b].agenda != NULL)
    && (forall b :: 0 <= b < 2 && p.P[b].agenda != NULL ==> 0 <= p.P[b].agenda < p.A.Length
                                                            && !p.A[p.P[b].agenda].resume)
  }

  lemma EnlistedSides(E: seq<Elem>, P: seq<Block>, finals: seq<bool>, lists: seq<seq<int>>)
    requires Enlisted(E, P, finals, |E|, lists)
    ensures |finals| == |E| && forall x :: 0 <= x < |E| ==> E[x].group == Side(finals, x)
  {
  }

  lemma InitQueued(p: Partition, finals: seq<bool>, numFinals: nat)
    requires p.E.Length == p.n == |finals| && p.P.Length == p.n + 1 && p.A.Length == 2 * p.n && p.n >= 1 && p.pNext == 2
    requires Enlisted(p.E[..], p.P[..], finals, p.n, p.lists) && numFinals == |FinalSet(finals)| > 0
    requires p.P[FINAL].agenda == 0 && !p.A[0].resume
    requires p.n > numFinals ==> p.P[NONFINAL].agenda == 1 && !p.A[1].resume
    requires p.n == numFinals ==> p.P[NONFINAL].agenda == NULL
    requires numFinals <= p.n
    ensures FirstQueue(p, finals)
  {
    hide ListOK, Placed;
    EnlistedCounts(p.E[..], finals);
    EnlistedSides(p.E[..], p.P[..], finals, p.lists);
    assert |Members(p.E[..], 0)| == 0 ==> Members(p.E[..], 0) == {};
  }

  lemma InitLinked(p: Partition, finals: seq<bool>, numFinals: nat, p0: seq<Block>)
    requires p.E.Length == p.n == |finals| && p.P.Length == p.n + 1 == |p0| && p.A.Length == 2 * p.n && p.n >= 1
    requires numFinals == |FinalSet(finals)| > 0 && p.pNext == 2
    requires Enlisted(p.E[..], p.P[..], finals, p.n, p.lists)
    requires forall c :: 0 <= c < p.P.Length ==> p.P[c] == p0[c].(first := p.P[c].first, last := p.P[c].last)
    requires AgendaOK(p.A[..], p0, p.agenda, p.entries, p.aNext, 2) && ChainOK(p0, p.head, p.chain, 2)
    requires p.aNext == p.totalStates == (if p.n == numFinals then 1 else 2)
    requires FINAL in p.chain && (p.n > numFinals ==> NONFINAL in p.chain)
    requires p.popped + |p.entries| == p.aNext
    requires p.inv == seq(p.n, _ => 0)
    requires p0[0].count == p.n - numFinals && p0[1].count == numFinals
    requires p.n == numFinals ==> p0[0].agenda == NULL
    requires forall b :: 0 <= b < 2 ==> Quiet(p0[b]) && p0[b].inv == 0
    ensures p.Linked() && p.Settled()
  {
    hide AgendaOK, ChainOK, LinkOK, ListOK, Placed;
    var E := p.E[..];
    EnlistedLinks(E, p.P[..], finals, p.lists);
    EnlistedCounts(E, finals);
    EnlistedClasses(E, finals);
    ListIsMembers(E, p.P[..], p.lists, 0);
    ListIsMembers(E, p.P[..], p.lists, 1);
    AgendaFrame(p.A[..], p0, p.agenda, p.entries, p.aNext, 2, p.P[..], 2);
    ChainFrame(p0, p.head, p.chain, 2, p.P[..]);
    forall b | 0 <= b < 2 ensures CountOK(E, p.P[..], b, p.inv) && Quiet(p.P[b]) {
      ZeroWeight(p.inv, Members(E, b), p.n);
    }
    if |Members(E, 0)| == 0 {
      assert Members(E, 0) == {};
      assert Elements(Groups(E)) == {1};
    } else {
      assert Elements(Groups(E)) == {0, 1};
    }
    forall x | 0 <= x < p.n ensures E[x].group in p.chain {
      assert x in Members(E, E[x].group);
    }
  }
}
