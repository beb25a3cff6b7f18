// The records of the minimizer (minimize.c) as values: list elements, blocks
// and agenda entries refer to each other by pool index, NULL being -1.  The
// predicates say what the links must mean; the lemmas say that the pointer
// updates of refine_states preserve it.

module Blocks {
  import opened Counting

  const NULL := -1

  datatype Elem = Elem(group: int, left: int, right: int, inv: nat)

  datatype Block = Block(first: int, last: int, split: int, next: int, agenda: int,
                         count: int, tCount: int, inv: int, invT: int)

  datatype Entry = Entry(p: int, next: int, resume: bool)

  // ---- Weighted sums over sets of states ----

  ghost function Weight(inv: seq<nat>, s: set<int>, k: nat): nat
    requires k <= |inv|
  {
    if k == 0 then 0 else Weight(inv, s, k - 1) + (if k - 1 in s then inv[k - 1] else 0)
  }

  lemma {:induction false} WeightAdd(inv: seq<nat>, s: set<int>, x: int, k: nat)
    requires k <= |inv| && x !in s
    ensures Weight(inv, s + {x}, k) == Weight(inv, s, k) + (if 0 <= x < k then inv[x] else 0)
    decreases k
  {
    if k > 0 {
      WeightAdd(inv, s, x, k - 1);
    }
  }

  lemma {:induction false} WeightDifference(inv: seq<nat>, s: set<int>, t: set<int>, k: nat)
    requires k <= |inv| && t <= s
    ensures Weight(inv, s - t, k) == Weight(inv, s, k) - Weight(inv, t, k)
    decreases k
  {
    if k > 0 {
      WeightDifference(inv, s, t, k - 1);
    }
  }

  lemma {:induction false} WeightEmpty(inv: seq<nat>, k: nat)
    requires k <= |inv|
    ensures Weight(inv, {}, k) == 0
    decreases k
  {
    if k > 0 {
      WeightEmpty(inv, k - 1);
    }
  }

  // ---- Doubly linked lists ----

  ghost function Before(l: seq<int>, k: nat): int
    requires k < |l|
  {
    if k == 0 then NULL else l[k - 1]
  }

  ghost function After(l: seq<int>, k: nat): int
    requires k < |l|
  {
    if k == |l| - 1 then NULL else l[k + 1]
  }

  ghost predicate ListOK(E: seq<Elem>, P: seq<Block>, l: seq<int>, b: int)
    requires 0 <= b < |P|
  {
    && AllBelow(l, |E|)
    && NoDup(l)
    && (forall k :: 0 <= k < |l| ==> E[l[k]].group == b)
    && (forall j, k :: 0 <= j < k < |l| && k == j + 1 ==> E[l[j]].right == l[k] && E[l[k]].left == l[j])
    && (l != [] ==> E[l[0]].left == NULL && E[l[|l| - 1]].right == NULL)
    && (l != [] ==> P[b].first == l[0] && P[b].last == l[|l| - 1])
  }

  lemma LinksAt(E: seq<Elem>, P: seq<Block>, l: seq<int>, b: int, k: nat)
    requires 0 <= b < |P| && ListOK(E, P, l, b) && k < |l|
    ensures E[l[k]].left == Before(l, k) && E[l[k]].right == After(l, k)
  {
    assert k > 0 ==> E[l[k - 1]].right == l[k];
    assert k < |l| - 1 ==> E[l[k + 1]].left == l[k];
  }

  // Every element is on exactly one list, the one its group field names.
  ghost predicate LinkOK(E: seq<Elem>, P: seq<Block>, lists: seq<seq<int>>) {
    && |lists| <= |P|
    && (forall b :: 0 <= b < |lists| ==> ListOK(E, P, lists[b], b))
    && (forall x :: 0 <= x < |E| ==> 0 <= E[x].group < |lists| && x in lists[E[x].group])
  }

  ghost function Groups(E: seq<Elem>): seq<int> {
    seq(|E|, x requires 0 <= x < |E| => E[x].group)
  }

  ghost function Members(E: seq<Elem>, b: int): set<int> {
    set x | 0 <= x < |E| && E[x].group == b
  }

  lemma ListIsMembers(E: seq<Elem>, P: seq<Block>, lists: seq<seq<int>>, b: int)
    requires LinkOK(E, P, lists) && 0 <= b < |lists|
    ensures Elements(lists[b]) == Members(E, b) && |Members(E, b)| == |lists[b]|
  {
    assert ListOK(E, P, lists[b], b);
    NoDupSize(lists[b]);
    forall x | x in lists[b] ensures x in Members(E, b) {
      var k :| 0 <= k < |lists[b]| && lists[b][k] == x;
    }
    assert Elements(lists[b]) == Members(E, b);
  }

  // What moving element x from the list of block b to the end of the list of
  // block s does to the element records.
  ghost predicate Moved(E: seq<Elem>, E': seq<Elem>, x: int, s: int, tail: int)
    requires 0 <= x < |E|
  {
    && |E'| == |E|
    && E'[x] == Elem(s, tail, NULL, E[x].inv)
    && forall y :: 0 <= y < |E| && y != x ==>
         E'[y] == if y == E[x].left then E[y].(right := E[x].right)
                  else if y == E[x].right then E[y].(left := E[x].left)
                  else if y == tail then E[y].(right := x)
                  else E[y]
  }

  ghost predicate EndsMoved(E: seq<Elem>, P: seq<Block>, P': seq<Block>, x: int, b: int, s: int)
    requires 0 <= x < |E| && 0 <= b < |P| && 0 <= s < |P|
  {
    && |P'| == |P|
    && P'[b].first == (if P[b].first == x then E[x].right else P[b].first)
    && P'[b].last == (if P[b].last == x then E[x].left else P[b].last)
    && P'[s].last == x
    && (forall c :: 0 <= c < |P| && c != b && c != s ==> P'[c].first == P[c].first && P'[c].last == P[c].last)
  }

  lemma MemberOfList(E: seq<Elem>, P: seq<Block>, lists: seq<seq<int>>, s: int)
    requires LinkOK(E, P, lists) && 0 <= s < |lists| && lists[s] != []
    ensures exists y :: 0 <= y < |E| && E[y].group == s
  {
    assert ListOK(E, P, lists[s], s);
    assert E[lists[s][0]].group == s;
  }

  ghost predicate Dropped(l: seq<int>, k: nat, l': seq<int>)
    requires k < |l|
  {
    |l'| == |l| - 1 && forall m :: 0 <= m < |l'| ==> l'[m] == l[if m < k then m else m + 1]
  }

  lemma WithoutAt(E: seq<Elem>, P: seq<Block>, l: seq<int>, k: nat, b: int, s: int, tail: int, E': seq<Elem>,
                  l': seq<int>, m: nat)
    requires 0 <= b < |P| && b != s && ListOK(E, P, l, b) && k < |l| && Dropped(l, k, l') && m < |l'|
    requires Moved(E, E', l[k], s, tail)
    requires tail == NULL || (0 <= tail < |E| && E[tail].group == s)
    ensures E'[l'[m]].group == b && E'[l'[m]].left == Before(l', m) && E'[l'[m]].right == After(l', m)
  {
    var o := if m < k then m else m + 1;
    assert l'[m] == l[o] && l[o] != l[k] && E[l[o]].group == b;
    LinksAt(E, P, l, b, o);
    LinksAt(E, P, l, b, k);
  }

  lemma DroppedOK(l: seq<int>, k: nat, l': seq<int>, n: nat)
    requires k < |l| && Dropped(l, k, l') && NoDup(l) && AllBelow(l, n)
    ensures NoDup(l') && AllBelow(l', n) && l[k] !in l'
  {
    forall i, j | 0 <= i < j < |l'| ensures l'[i] != l'[j] {
      assert l'[i] == l[if i < k then i else i + 1] && l'[j] == l[if j < k then j else j + 1];
    }
  }

  lemma DroppedEnds(E: seq<Elem>, P: seq<Block>, l: seq<int>, k: nat, b: int, s: int, P': seq<Block>, l': seq<int>)
    requires 0 <= b < |P| && 0 <= s < |P| && b != s && ListOK(E, P, l, b) && k < |l| && Dropped(l, k, l')
    requires EndsMoved(E, P, P', l[k], b, s)
    ensures l' != [] ==> P'[b].first == l'[0] && P'[b].last == l'[|l'| - 1]
  {
    if l' != [] {
      LinksAt(E, P, l, b, k);
      var last := |l| - 1;
      assert l'[0] == l[if 0 < k then 0 else 1];
      assert l'[last - 1] == l[if last - 1 < k then last - 1 else last];
      assert 0 < k ==> l[0] != l[k];
      assert k < last ==> l[k] != l[last];
    }
  }

  lemma WithoutList(E: seq<Elem>, P: seq<Block>, l: seq<int>, k: nat, b: int, s: int, tail: int,
                    E': seq<Elem>, P': seq<Block>, l': seq<int>)
    requires 0 <= b < |P| && 0 <= s < |P| && b != s && ListOK(E, P, l, b) && k < |l| && Dropped(l, k, l')
    requires Moved(E, E', l[k], s, tail) && EndsMoved(E, P, P', l[k], b, s)
    requires tail == NULL || (0 <= tail < |E| && E[tail].group == s)
    ensures ListOK(E', P', l', b)
  {
    forall m | 0 <= m < |l'|
      ensures E'[l'[m]].group == b && E'[l'[m]].left == Before(l', m) && E'[l'[m]].right == After(l', m)
    {
      WithoutAt(E, P, l, k, b, s, tail, E', l', m);
    }
    DroppedOK(l, k, l', |E|);
    DroppedEnds(E, P, l, k, b, s, P', l');
  }

  lemma AppendedList(E: seq<Elem>, P: seq<Block>, l: seq<int>, x: int, b: int, s: int, tail: int, E': seq<Elem>,
                     P': seq<Block>)
    requires 0 <= b < |P| && 0 <= s < |P| && b != s && ListOK(E, P, l, s)
    requires 0 <= x < |E| && E[x].group == b
    requires E[x].left == NULL || (0 <= E[x].left < |E| && E[E[x].left].group == b)
    requires E[x].right == NULL || (0 <= E[x].right < |E| && E[E[x].right].group == b)
    requires tail == if l == [] then NULL else l[|l| - 1]
    requires Moved(E, E', x, s, tail) && EndsMoved(E, P, P', x, b, s)
    requires P'[s].first == if l == [] then x else P[s].first
    ensures ListOK(E', P', l + [x], s)
  {
    var l' := l + [x];
    forall m | 0 <= m < |l'| ensures E'[l'[m]].group == s
      && E'[l'[m]].left == Before(l', m) && E'[l'[m]].right == After(l', m)
    {
      if m < |l| {
        assert l'[m] == l[m] && E[l[m]].group == s;
        assert l[m] == l[|l| - 1] <==> m == |l| - 1;
        LinksAt(E, P, l, s, m);
        assert m > 0 ==> l'[m - 1] == l[m - 1];
      }
    }
  }

  lemma OtherList(E: seq<Elem>, P: seq<Block>, l: seq<int>, c: int, x: int, b: int, s: int, tail: int, E': seq<Elem>,
                  P': seq<Block>)
    requires 0 <= b < |P| && 0 <= s < |P| && b != s && 0 <= c < |P| && c != b && c != s && ListOK(E, P, l, c)
    requires 0 <= x < |E| && E[x].group == b
    requires E[x].left == NULL || (0 <= E[x].left < |E| && E[E[x].left].group == b)
    requires E[x].right == NULL || (0 <= E[x].right < |E| && E[E[x].right].group == b)
    requires tail == NULL || (0 <= tail < |E| && E[tail].group == s)
    requires Moved(E, E', x, s, tail) && EndsMoved(E, P, P', x, b, s)
    ensures ListOK(E', P', l, c)
  {
  }

  lemma PositionOf(E: seq<Elem>, P: seq<Block>, lists: seq<seq<int>>, x: int) returns (k: nat)
    requires LinkOK(E, P, lists) && 0 <= x < |E|
    ensures 0 <= E[x].group < |lists|
    ensures k < |lists[E[x].group]| && lists[E[x].group][k] == x
    ensures E[x].left == NULL || (0 <= E[x].left < |E| && E[E[x].left].group == E[x].group)
    ensures E[x].right == NULL || (0 <= E[x].right < |E| && E[E[x].right].group == E[x].group)
  {
    var l := lists[E[x].group];
    k :| 0 <= k < |l| && l[k] == x;
    assert ListOK(E, P, l, E[x].group);
    LinksAt(E, P, l, E[x].group, k);
    assert k > 0 ==> E[l[k - 1]].group == E[x].group;
    assert k < |l| - 1 ==> E[l[k + 1]].group == E[x].group;
  }

  ghost predicate ListsMoved(lists: seq<seq<int>>, x: int, k: nat, b: int, s: int, lists': seq<seq<int>>)
    requires 0 <= b < |lists| && 0 <= s < |lists| && k < |lists[b]|
  {
    && |lists'| == |lists|
    && Dropped(lists[b], k, lists'[b])
    && lists'[s] == lists[s] + [x]
    && (forall c :: 0 <= c < |lists| && c != b && c != s ==> lists'[c] == lists[c])
  }

  lemma MoveKeepsMembership(lists: seq<seq<int>>, x: int, k: nat, b: int, s: int,
                            lists': seq<seq<int>>, y: int, g: int, g': int)
    requires 0 <= b < |lists| && 0 <= s < |lists|
    requires b != s && k < |lists[b]| && lists[b][k] == x
    requires ListsMoved(lists, x, k, b, s, lists')
    requires 0 <= g < |lists| && y in lists[g]
    requires g' == if y == x then s else g
    ensures y in lists'[g']
  {
    if y == x {
      assert lists'[s][|lists[s]|] == x;
    } else {
      var m :| 0 <= m < |lists[g]| && lists[g][m] == y;
      if g == b {
        assert lists'[b][if m < k then m else m - 1] == lists[b][m];
      }
    }
  }

  // The relinking of one element keeps the lists a partition.
  lemma MoveKeepsLinks(E: seq<Elem>, P: seq<Block>, lists: seq<seq<int>>, x: int, k: nat, b: int, s: int, tail: int,
                       E': seq<Elem>, P': seq<Block>, lists': seq<seq<int>>)
    requires LinkOK(E, P, lists) && 0 <= x < |E| && 0 <= s < |lists|
    requires b == E[x].group && b != s && k < |lists[b]| && lists[b][k] == x
    requires tail == if lists[s] == [] then NULL else lists[s][|lists[s]| - 1]
    requires Moved(E, E', x, s, tail) && EndsMoved(E, P, P', x, b, s)
    requires P'[s].first == if lists[s] == [] then x else P[s].first
    requires ListsMoved(lists, x, k, b, s, lists')
    ensures LinkOK(E', P', lists')
  {
    var _ := PositionOf(E, P, lists, x);
    assert ListOK(E, P, lists[b], b) && ListOK(E, P, lists[s], s);
    forall c | 0 <= c < |lists'| ensures ListOK(E', P', lists'[c], c) {
      if c == b {
        WithoutList(E, P, lists[b], k, b, s, tail, E', P', lists'[b]);
      } else if c == s {
        AppendedList(E, P, lists[s], x, b, s, tail, E', P');
      } else {
        assert ListOK(E, P, lists[c], c);
        OtherList(E, P, lists[c], c, x, b, s, tail, E', P');
      }
    }
    forall y | 0 <= y < |E'| ensures 0 <= E'[y].group < |lists'| && y in lists'[E'[y].group] {
      MoveKeepsMembership(lists, x, k, b, s, lists', y, E[y].group, E'[y].group);
    }
  }

  ghost predicate SameLinks(p: Block, q: Block) {
    p.first == q.first && p.last == q.last && p.next == q.next && p.agenda == q.agenda
  }

  // ---- Counters ----

  ghost predicate CountOK(E: seq<Elem>, P: seq<Block>, b: int, inv: seq<nat>)
    requires 0 <= b < |P| && |inv| == |E|
  {
    P[b].count == |Members(E, b)| && P[b].inv == Weight(inv, Members(E, b), |inv|)
  }

  ghost predicate Quiet(p: Block) {
    p.tCount == 0 && p.invT == 0 && p.split == NULL
  }

  // ---- The agenda and the chain of blocks ----

  ghost predicate AgendaOK(A: seq<Entry>, P: seq<Block>, head: int, entries: seq<int>, aNext: nat, blocks: nat) {
    && aNext <= |A| && blocks <= |P|
    && NoDup(entries) && AllBelow(entries, aNext)
    && head == (if entries == [] then NULL else entries[0])
    && (forall j, k :: 0 <= j < k < |entries| && k == j + 1 ==> A[entries[j]].next == entries[k])
    && (entries != [] ==> A[entries[|entries| - 1]].next == NULL)
    && (forall k :: 0 <= k < |entries| ==> 0 <= A[entries[k]].p < blocks && P[A[entries[k]].p].agenda == entries[k])
    && (forall b :: 0 <= b < blocks && P[b].agenda != NULL ==> P[b].agenda in entries && A[P[b].agenda].p == b)
  }

  ghost predicate InChain(E: seq<Elem>, chain: seq<int>) {
    forall x :: 0 <= x < |E| ==> E[x].group in chain
  }

  ghost predicate InvOK(E: seq<Elem>, inv: seq<nat>) {
    |inv| == |E| && forall x :: 0 <= x < |E| ==> E[x].inv == inv[x]
  }

  ghost predicate ChainOK(P: seq<Block>, head: int, chain: seq<int>, blocks: nat) {
    && blocks <= |P| && AllBelow(chain, blocks)
    && chain != [] && head == chain[0]
    && (forall j, k :: 0 <= j < k < |chain| && k == j + 1 ==> P[chain[j]].next == chain[k])
    && P[chain[|chain| - 1]].next == NULL
    && NoDup(chain)
  }

  // Pushing a block that is not on the agenda (first in, last out).
  lemma AgendaPush(A: seq<Entry>, P: seq<Block>, head: int, entries: seq<int>, aNext: nat, blocks: nat,
                   p: int, resume: bool, A': seq<Entry>, P': seq<Block>)
    requires AgendaOK(A, P, head, entries, aNext, blocks)
    requires 0 <= p < blocks && P[p].agenda == NULL && aNext < |A|
    requires A' == A[aNext := Entry(p, head, resume)] && P' == P[p := P[p].(agenda := aNext)]
    ensures AgendaOK(A', P', aNext, [aNext] + entries, aNext + 1, blocks)
  {
    var entries' := [aNext] + entries;
    forall j, k | 0 <= j < k < |entries'| && k == j + 1 ensures A'[entries'[j]].next == entries'[k] {
      if j > 0 {
        assert A[entries[j - 1]].next == entries[j];
      }
    }
    forall k | 0 <= k < |entries'| ensures 0 <= A'[entries'[k]].p < blocks
        && P'[A'[entries'[k]].p].agenda == entries'[k] {
      if k > 0 {
        assert P[A[entries[k - 1]].p].agenda == entries[k - 1];
      }
    }
    forall b | 0 <= b < blocks && P'[b].agenda != NULL ensures P'[b].agenda in entries' && A'[P'[b].agenda].p == b {
      if b != p {
        QueuedBlock(A, P, head, entries, aNext, blocks, b);
      }
    }
  }

  lemma QueuedBlock(A: seq<Entry>, P: seq<Block>, head: int, entries: seq<int>, aNext: nat, blocks: nat, b: int)
    requires AgendaOK(A, P, head, entries, aNext, blocks) && 0 <= b < blocks && P[b].agenda != NULL
    ensures P[b].agenda in entries && 0 <= P[b].agenda < aNext <= |A| && A[P[b].agenda].p == b
  {
    var k :| 0 <= k < |entries| && entries[k] == P[b].agenda;
  }

  // The agenda only looks at the agenda fields; a new block starts off it.
  lemma AgendaFrame(A: seq<Entry>, P: seq<Block>, head: int, entries: seq<int>, aNext: nat, blocks: nat, P': seq<Block>,
                    blocks': nat)
    requires AgendaOK(A, P, head, entries, aNext, blocks) && blocks <= blocks' <= |P'|
    requires forall b :: 0 <= b < blocks ==> P'[b].agenda == P[b].agenda
    requires forall b :: blocks <= b < blocks' ==> P'[b].agenda == NULL
    ensures AgendaOK(A, P', head, entries, aNext, blocks')
  {
  }

  lemma AgendaRestart(A: seq<Entry>, P: seq<Block>, head: int, entries: seq<int>, aNext: nat, blocks: nat, e: int,
                      A': seq<Entry>)
    requires AgendaOK(A, P, head, entries, aNext, blocks) && 0 <= e < |A|
    requires A' == A[e := A[e].(resume := false)]
    ensures AgendaOK(A', P, head, entries, aNext, blocks)
  {
  }

  lemma AgendaHead(A: seq<Entry>, P: seq<Block>, head: int, entries: seq<int>, aNext: nat, blocks: nat)
    requires AgendaOK(A, P, head, entries, aNext, blocks) && head != NULL
    ensures entries != [] && 0 <= head < aNext <= |A| && 0 <= A[head].p < blocks <= |P| && P[A[head].p].agenda == head
  {
    assert head == entries[0];
  }

  // Only blocks with states are on the agenda.
  ghost predicate QueuedFull(P: seq<Block>, lists: seq<seq<int>>, but: int)
  {
    |lists| <= |P| && forall b :: 0 <= b < |lists| && b != but && P[b].agenda != NULL ==> lists[b] != []
  }

  lemma ListHas(E: seq<Elem>, P: seq<Block>, lists: seq<seq<int>>, u: int)
    requires LinkOK(E, P, lists) && 0 <= u < |E|
    ensures 0 <= E[u].group < |lists| && lists[E[u].group] != []
  {
  }

  // The agenda field of a block names its entry.
  lemma AgendaEntry(A: seq<Entry>, P: seq<Block>, head: int, entries: seq<int>, aNext: nat, blocks: nat, b: int)
    requires AgendaOK(A, P, head, entries, aNext, blocks) && 0 <= b < blocks && P[b].agenda != NULL
    ensures 0 <= P[b].agenda < aNext <= |A| && entries != [] && head != NULL
  {
    var k :| 0 <= k < |entries| && entries[k] == P[b].agenda;
  }

  lemma AgendaPop(A: seq<Entry>, P: seq<Block>, head: int, entries: seq<int>, aNext: nat, blocks: nat, P': seq<Block>)
    requires AgendaOK(A, P, head, entries, aNext, blocks) && entries != []
    requires P' == P[A[head].p := P[A[head].p].(agenda := NULL)]
    ensures AgendaOK(A, P', A[head].next, entries[1..], aNext, blocks)
  {
    var rest := entries[1..];
    assert rest != [] ==> A[entries[0]].next == entries[1];
    forall j, k | 0 <= j < k < |rest| && k == j + 1 ensures A[rest[j]].next == rest[k] {
      assert A[entries[j + 1]].next == entries[k + 1];
    }
    PopEntries(A, P, head, entries, aNext, blocks, P');
    PopBlocks(A, P, head, entries, aNext, blocks, P');
  }

  lemma PopEntries(A: seq<Entry>, P: seq<Block>, head: int, entries: seq<int>, aNext: nat, blocks: nat, P': seq<Block>)
    requires AgendaOK(A, P, head, entries, aNext, blocks) && entries != []
    requires P' == P[A[head].p := P[A[head].p].(agenda := NULL)]
    ensures var rest := entries[1..];
            forall k :: 0 <= k < |rest| ==> 0 <= A[rest[k]].p < blocks && P'[A[rest[k]].p].agenda == rest[k]
  {
    var rest := entries[1..];
    forall k | 0 <= k < |rest| ensures 0 <= A[rest[k]].p < blocks && P'[A[rest[k]].p].agenda == rest[k] {
      assert rest[k] == entries[k + 1] && entries[k + 1] != entries[0];
      assert P[A[entries[k + 1]].p].agenda == entries[k + 1];
      assert P[A[entries[0]].p].agenda == entries[0];
    }
  }

  lemma PopBlocks(A: seq<Entry>, P: seq<Block>, head: int, entries: seq<int>, aNext: nat, blocks: nat, P': seq<Block>)
    requires AgendaOK(A, P, head, entries, aNext, blocks) && entries != []
    requires P' == P[A[head].p := P[A[head].p].(agenda := NULL)]
    ensures forall b :: 0 <= b < blocks && P'[b].agenda != NULL ==>
                          P'[b].agenda in entries[1..] && A[P'[b].agenda].p == b
  {
    var rest := entries[1..];
    forall b | 0 <= b < blocks && P'[b].agenda != NULL ensures P'[b].agenda in rest && A[P'[b].agenda].p == b {
      var k :| 0 <= k < |entries| && entries[k] == P[b].agenda;
      assert k > 0;
      assert rest[k - 1] == P[b].agenda;
    }
  }

  lemma ChainInsert(P: seq<Block>, head: int, chain: seq<int>, blocks: nat, P': seq<Block>)
    requires ChainOK(P, head, chain, blocks) && blocks < |P| == |P'|
    requires P'[blocks].next == P[head].next && P'[head].next == blocks
    requires forall b :: 0 <= b < blocks && b != head ==> P'[b].next == P[b].next
    ensures ChainOK(P', head, [head, blocks] + chain[1..], blocks + 1)
    ensures forall b :: b in chain ==> b in [head, blocks] + chain[1..]
  {
    var chain' := [head, blocks] + chain[1..];
    assert |chain| > 1 ==> P[chain[0]].next == chain[1];
    forall j, k | 0 <= j < k < |chain'| && k == j + 1 ensures P'[chain'[j]].next == chain'[k] {
      if j >= 2 {
        assert P[chain[j - 1]].next == chain[k - 1];
      }
    }
    forall b | b in chain ensures b in chain' {
      var k :| 0 <= k < |chain| && chain[k] == b;
      assert chain'[if k == 0 then 0 else k + 1] == b;
    }
  }

  lemma ChainFrame(P: seq<Block>, head: int, chain: seq<int>, blocks: nat, P': seq<Block>)
    requires ChainOK(P, head, chain, blocks) && blocks <= |P'|
    requires forall b :: 0 <= b < blocks ==> P'[b].next == P[b].next
    ensures ChainOK(P', head, chain, blocks)
  {
  }

  lemma ChainGrow(P: seq<Block>, head: int, chain: seq<int>, blocks: nat, P': seq<Block>, blocks': nat)
    requires ChainOK(P, head, chain, blocks) && blocks <= blocks' <= |P'|
    requires forall b :: 0 <= b < blocks ==> P'[b].next == P[b].next
    ensures ChainOK(P', head, chain, blocks') && AllBelow(chain, blocks)
  {
  }

  lemma ChainShrink(P: seq<Block>, head: int, chain: seq<int>, blocks: nat)
    requires ChainOK(P, head, chain, blocks + 1) && AllBelow(chain, blocks)
    ensures ChainOK(P, head, chain, blocks)
  {
  }

  lemma ChainStillCovers(E: seq<Elem>, chain: seq<int>, chain': seq<int>)
    requires InChain(E, chain) && forall b :: b in chain ==> b in chain'
    ensures InChain(E, chain')
  {
  }

  lemma LinkFrame(E: seq<Elem>, P: seq<Block>, lists: seq<seq<int>>, P': seq<Block>, lists': seq<seq<int>>)
    requires LinkOK(E, P, lists) && |lists'| <= |P'| && |lists| <= |lists'|
    requires forall b :: 0 <= b < |lists| ==> lists'[b] == lists[b] && P'[b].first == P[b].first
                                              && P'[b].last == P[b].last
    requires forall b :: |lists| <= b < |lists'| ==> lists'[b] == []
    ensures LinkOK(E, P', lists')
  {
    forall b | 0 <= b < |lists'| ensures ListOK(E, P', lists'[b], b) {
      if b < |lists| {
        assert ListOK(E, P, lists[b], b);
      }
    }
  }

  lemma MoveKeepsRest(E: seq<Elem>, E': seq<Elem>, x: int, s: int, tail: int, chain: seq<int>, inv: seq<nat>)
    requires 0 <= x < |E| && Moved(E, E', x, s, tail) && InChain(E, chain) && InvOK(E, inv) && s in chain
    ensures InChain(E', chain) && InvOK(E', inv)
    ensures forall y :: 0 <= y < |E| ==> E'[y].group == if y == x then s else E[y].group
  {
  }

  // The class numbers in use when x leaves a class that keeps another state.
  lemma GroupsAfterMove(E: seq<Elem>, E': seq<Elem>, x: int, u: int, s: int)
    requires 0 <= x < |E| && 0 <= u < |E| && u != x && E[u].group == E[x].group
    requires |E'| == |E| && E'[x].group == s
    requires forall y :: 0 <= y < |E| && y != x ==> E'[y].group == E[y].group
    ensures Elements(Groups(E')) == Elements(Groups(E)) + {s}
  {
    var g, g' := Groups(E), Groups(E');
    forall b | b in g' ensures b in g || b == s {
      var y :| 0 <= y < |g'| && g'[y] == b;
      if y != x {
        assert g[y] == b;
      }
    }
    forall b | b in g || b == s ensures b in g' {
      if b == s {
        assert g'[x] == b;
      } else {
        var y :| 0 <= y < |g| && g[y] == b;
        assert g'[if y == x then u else y] == b;
      }
    }
  }
}
