// refine_states and agenda_add (minimize.c): splitting every block by a set
// of states, on the pools of list elements, blocks and agenda entries.

module Refine {
  import opened Counting
  import opened Blocks
  import opened Stages
  import opened Splitters

  class Partition {
    const n: nat
    const E: array<Elem>
    const P: array<Block>
    const A: array<Entry>
    var pNext: nat        // first free slot of the block pool
    var aNext: nat        // first free slot of the agenda pool
    var agenda: int       // head of the agenda
    var head: int         // head of the chain of blocks
    var totalStates: nat
    var currentW: int     // the block being split with
    ghost var inv: seq<nat>          // arcs into each state
    ghost var lists: seq<seq<int>>   // the states of each block, in list order
    ghost var entries: seq<int>      // the agenda, first to last
    ghost var chain: seq<int>        // the blocks, first to last
    ghost var popped: nat            // agenda entries used up so far

    ghost predicate Core()
      reads this, E, P, A
    {
      && E.Length == n && P.Length == n + 1 && A.Length == 2 * n
      && |lists| == pNext <= n + 1 && LinkOK(E[..], P[..], lists)
      && AgendaOK(A[..], P[..], agenda, entries, aNext, pNext)
      && ChainOK(P[..], head, chain, pNext)
      && InChain(E[..], chain) && |inv| == n && InvOK(E[..], inv)
      && popped + |entries| == aNext
    }

    // The lists partition the states into totalStates classes; the pools
    // cannot overflow.
    ghost predicate Linked()
      reads this, E, P, A
    {
      && Core()
      && |Elements(Groups(E[..]))| == totalStates <= n
      && pNext <= totalStates + 1 && aNext <= 2 * totalStates
      && QueuedFull(P[..], lists, NULL)
    }

    // Between two calls the counters describe the blocks.
    ghost predicate Settled()
      reads this, E, P
    {
      E.Length == n == |inv| && pNext <= P.Length && forall b :: 0 <= b < pNext ==> CountOK(E[..], P[..], b, inv)
                                                                                    && Quiet(P[b])
    }

    constructor (n: nat, agendaSize: nat)
      ensures this.n == n && fresh(E) && fresh(P) && fresh(A)
      ensures E.Length == n && P.Length == n + 1 && A.Length == agendaSize
      ensures forall x :: 0 <= x < n ==> E[x] == Elem(NULL, NULL, NULL, 0)
      ensures forall b :: 0 <= b <= n ==> P[b] == Block(NULL, NULL, NULL, NULL, NULL, 0, 0, 0, 0)
    {
      this.n := n;
      E := new Elem[n](_ => Elem(NULL, NULL, NULL, 0));
      P := new Block[n + 1](_ => Block(NULL, NULL, NULL, NULL, NULL, 0, 0, 0, 0));
      A := new Entry[agendaSize](_ => Entry(NULL, NULL, false));
    }

    method AgendaAdd(p: int, resume: bool, ghost blocks: nat)
      requires AgendaOK(A[..], P[..], agenda, entries, aNext, blocks)
      requires 0 <= p < blocks && P[p].agenda == NULL && aNext < A.Length
      modifies this`aNext, this`agenda, this`entries, A, P
      ensures AgendaOK(A[..], P[..], agenda, entries, aNext, blocks)
      ensures aNext == old(aNext) + 1 && agenda == old(aNext) && entries == [old(aNext)] + old(entries)
      ensures A[..] == old(A[..])[old(aNext) := Entry(p, old(agenda), resume)]
      ensures P[..] == old(P[..])[p := old(P[p]).(agenda := old(aNext))]
    {
      ghost var a0, p0 := A[..], P[..];
      A[aNext] := Entry(p, agenda, resume);
      P[p] := P[p].(agenda := aNext);
      AgendaPush(a0, p0, agenda, entries, aNext, blocks, p, resume, A[..], P[..]);
      agenda := aNext;
      entries := [aNext] + entries;
      aNext := aNext + 1;
    }

    // The agenda after the block b has been cut into b and s: the touched part
    // s always has all symbols ahead of it; b joins it only when it was the
    // block in use (selfsplit), for the symbols that are left.
    twostate predicate Requeued(b: int, s: int, selfsplit: bool)
      requires 0 <= b < P.Length && 0 <= s < P.Length && old(0 <= aNext <= A.Length)
      reads this, A, P
    {
      && old(aNext) <= aNext <= old(aNext) + 2 && aNext <= A.Length
      && (old(P[b].inv >= P[b].invT) ==>
            && A[..old(aNext)] == old(A[..aNext])
            && (forall c :: 0 <= c < P.Length && c != s && (c == b ==> !selfsplit) ==> P[c].agenda == old(P[c].agenda))
            && old(aNext) <= P[s].agenda < aNext && !A[P[s].agenda].resume
            && (selfsplit ==> old(aNext) <= P[b].agenda < aNext && A[P[b].agenda].resume))
    }

    // The block being cut is on the agenda and stays there; the new part joins it.
    method EnqueuePending(b: int, s: int)
      requires AgendaOK(A[..], P[..], agenda, entries, aNext, pNext)
      requires 0 <= b < pNext <= P.Length && 0 <= s < pNext && b != s && P[s].agenda == NULL && aNext + 1 < A.Length
      requires P[b].agenda != NULL
      modifies this`aNext, this`agenda, this`entries, A, P
      ensures AgendaOK(A[..], P[..], agenda, entries, aNext, pNext) && |entries| - aNext == old(|entries| - aNext)
      ensures forall c :: 0 <= c < P.Length ==> P[c] == old(P[c]).(agenda := P[c].agenda)
      ensures Requeued(b, s, false)
    {
      hide LinkOK, AgendaOK;
      AgendaAdd(s, P[b].inv < P[b].invT, pNext);
      if P[b].inv < P[b].invT {
        StartAfresh(b);
      }
    }

    // The entry of b is not to be resumed any more.
    method StartAfresh(b: int)
      requires AgendaOK(A[..], P[..], agenda, entries, aNext, pNext) && 0 <= b < pNext <= P.Length
               && P[b].agenda != NULL
      modifies A
      ensures AgendaOK(A[..], P[..], agenda, entries, aNext, pNext) && 0 <= P[b].agenda < A.Length
      ensures forall e :: 0 <= e < A.Length ==>
                A[e] == if e == P[b].agenda then old(A[e]).(resume := false) else old(A[e])
    {
      hide AgendaOK;
      ghost var a0 := A[..];
      var e := P[b].agenda;
      AgendaEntry(a0, P[..], agenda, entries, aNext, pNext, b);
      A[e] := A[e].(resume := false);
      AgendaRestart(a0, P[..], agenda, entries, aNext, pNext, e, A[..]);
    }

    // The block being split with is cut: both parts go on the agenda.
    method EnqueueCurrent(b: int, s: int)
      requires AgendaOK(A[..], P[..], agenda, entries, aNext, pNext)
      requires 0 <= b < pNext <= P.Length && 0 <= s < pNext && b != s && P[s].agenda == NULL && aNext + 1 < A.Length
      requires P[b].agenda == NULL
      modifies this`aNext, this`agenda, this`entries, A, P
      ensures AgendaOK(A[..], P[..], agenda, entries, aNext, pNext) && |entries| - aNext == old(|entries| - aNext)
      ensures forall c :: 0 <= c < P.Length ==> P[c] == old(P[c]).(agenda := P[c].agenda)
      ensures Requeued(b, s, true)
    {
      hide AgendaOK;
      var small := P[b].inv < P[b].invT;
      EnqueueBoth(if small then b else s, if small then s else b);
    }

    method EnqueueBoth(first: int, second: int)
      requires AgendaOK(A[..], P[..], agenda, entries, aNext, pNext)
      requires 0 <= first < pNext <= P.Length && 0 <= second < pNext && first != second && aNext + 1 < A.Length
      requires P[first].agenda == P[second].agenda == NULL
      modifies this`aNext, this`agenda, this`entries, A, P
      ensures AgendaOK(A[..], P[..], agenda, entries, aNext, pNext) && |entries| == old(|entries|) + 2
      ensures aNext == old(aNext) + 2 && A[..old(aNext)] == old(A[..aNext])
      ensures !A[old(aNext)].resume && A[old(aNext) + 1].resume
      ensures P[first] == old(P[first]).(agenda := old(aNext)) && P[second] == old(P[second]).(agenda := old(aNext) + 1)
      ensures forall c :: 0 <= c < P.Length && c != first && c != second ==> P[c] == old(P[c])
    {
      hide AgendaOK;
      AgendaAdd(first, false, pNext);
      AgendaAdd(second, true, pNext);
    }

    // A block that is done with: only the part with fewer arcs goes back.
    method EnqueueIdle(b: int, s: int)
      requires AgendaOK(A[..], P[..], agenda, entries, aNext, pNext)
      requires 0 <= b < pNext <= P.Length && 0 <= s < pNext && b != s && P[s].agenda == NULL && aNext + 1 < A.Length
      requires P[b].agenda == NULL
      modifies this`aNext, this`agenda, this`entries, A, P
      ensures AgendaOK(A[..], P[..], agenda, entries, aNext, pNext) && |entries| - aNext == old(|entries| - aNext)
      ensures forall c :: 0 <= c < P.Length ==> P[c] == old(P[c]).(agenda := P[c].agenda)
      ensures Requeued(b, s, false)
    {
      hide AgendaOK;
      AgendaAdd(if P[b].inv < P[b].invT then b else s, false, pNext);
    }

    // Takes x out of the list of block b (its own links stay as they were).
    method Unlink(x: int, b: int, s: int)
      requires 0 <= x < E.Length && 0 <= b < P.Length
      requires E[x].left == NULL || (0 <= E[x].left < E.Length && E[x].left != x)
      requires E[x].right == NULL || (0 <= E[x].right < E.Length && E[x].right != x && E[x].right != E[x].left)
      modifies E, P
      ensures E[x] == old(E[x]).(group := s)
      ensures forall y :: 0 <= y < E.Length && y != x ==>
        E[y] == if y == old(E[x].left) then old(E[y]).(right := old(E[x].right))
                else if y == old(E[x].right) then old(E[y]).(left := old(E[x].left))
                else old(E[y])
      ensures P[b] == old(P[b]).(first := if old(P[b].first) == x then old(E[x].right) else old(P[b].first),
                                 last := if old(P[b].last) == x then old(E[x].left) else old(P[b].last))
      ensures forall c :: 0 <= c < P.Length && c != b ==> P[c] == old(P[c])
    {
      E[x] := E[x].(group := s);
      if x == P[b].last {
        P[b] := P[b].(last := E[x].left);
      }
      if x == P[b].first {
        P[b] := P[b].(first := E[x].right);
      }
      if E[x].left != NULL {
        E[E[x].left] := E[E[x].left].(right := E[x].right);
      }
      if E[x].right != NULL {
        E[E[x].right] := E[E[x].right].(left := E[x].left);
      }
    }

    // Puts x at the end of the list of block s; a new block already names x as
    // its first and last state.
    method Append(x: int, s: int)
      requires 0 <= x < E.Length && 0 <= s < P.Length
      requires P[s].last != x ==> 0 <= P[s].last < E.Length && P[s].first != x
      requires P[s].last == x ==> P[s].first == x
      modifies E, P
      ensures E[x] == old(E[x]).(left := if old(P[s].last) == x then NULL else old(P[s].last), right := NULL)
      ensures forall y :: 0 <= y < E.Length && y != x ==>
        E[y] == if y == old(P[s].last) then old(E[y]).(right := x) else old(E[y])
      ensures P[s] == old(P[s]).(last := x)
      ensures forall c :: 0 <= c < P.Length && c != s ==> P[c] == old(P[c])
    {
      if P[s].last != x {
        E[P[s].last] := E[P[s].last].(right := x);
        E[x] := E[x].(left := P[s].last);
        P[s] := P[s].(last := x);
      }
      E[x] := E[x].(right := NULL);
      if P[s].first == x {
        E[x] := E[x].(left := NULL);
      }
    }

    method Relink(x: int, b: int, s: int, ghost k: nat, ghost tail: int)
      requires LinkOK(E[..], P[..], lists) && 0 <= x < E.Length && E[x].group == b && b != s && 0 <= s < |lists|
      requires k < |lists[b]| && lists[b][k] == x
      requires tail == if lists[s] == [] then NULL else lists[s][|lists[s]| - 1]
      requires lists[s] == [] ==> P[s].first == P[s].last == x
      modifies E, P
      ensures Moved(old(E[..]), E[..], x, s, tail) && EndsMoved(old(E[..]), old(P[..]), P[..], x, b, s)
      ensures P[s].first == old(P[s].first)
      ensures forall c :: 0 <= c < P.Length ==> P[c] == old(P[c]).(first := P[c].first, last := P[c].last)
    {
      hide LinkOK;
      NeighboursOf(E[..], P[..], lists, x, b, s, k);
      Unlink(x, b, s);
      Append(x, s);
    }

    // Moves the state x of block b to the list of block s.
    method MoveLinks(x: int, b: int, s: int)
      requires Core() && 0 <= x < n && E[x].group == b && 0 <= b < pNext && b != s && 0 <= s < pNext && s in chain
      requires lists[s] == [] ==> P[s].first == P[s].last == x
      modifies this`lists, E, P
      ensures Core()
      ensures forall y :: 0 <= y < n ==> E[y].group == if y == x then s else old(E[y].group)
      ensures |lists| == old(|lists|) && lists[s] != []
              && (forall c :: 0 <= c < |lists| && c != b && c != s ==> lists[c] == old(lists[c]))
      ensures forall c :: 0 <= c < P.Length ==> P[c] == old(P[c]).(first := P[c].first, last := P[c].last)
    {
      hide LinkOK, AgendaOK, ChainOK, InChain, InvOK, Moved;
      ghost var e0, p0, l0 := E[..], P[..], lists;
      ghost var k := PositionOf(e0, p0, l0, x);
      ghost var tail := if l0[s] == [] then NULL else l0[s][|l0[s]| - 1];
      Relink(x, b, s, k, tail);
      lists := l0[b := l0[b][..k] + l0[b][k + 1..]][s := l0[s] + [x]];
      MoveKeepsLinks(e0, p0, l0, x, k, b, s, tail, E[..], P[..], lists);
      MoveKeepsRest(e0, E[..], x, s, tail, chain, inv);
      AgendaFrame(A[..], p0, agenda, entries, aNext, pNext, P[..], pNext);
      ChainFrame(p0, head, chain, pNext, P[..]);
    }

    // One touched state x moves from its block b to the new block s; with the
    // last one the counters of b are settled.
    method MoveState(x: int, b: int, s: int)
      requires Core() && 0 <= x < n && E[x].group == b && 0 <= b < pNext && b != s && 0 <= s < pNext && s in chain
      requires lists[s] == [] ==> P[s].first == P[s].last == x
      modifies this`lists, E, P
      ensures Core()
      ensures forall y :: 0 <= y < n ==> E[y].group == if y == x then s else old(E[y].group)
      ensures |lists| == old(|lists|) && lists[s] != []
              && (forall c :: 0 <= c < |lists| && c != b && c != s ==> lists[c] == old(lists[c]))
      ensures forall c :: 0 <= c < P.Length ==> P[c].agenda == old(P[c].agenda)
      ensures forall c :: 0 <= c < P.Length && c != b && c != s ==> SameCounters(P[c], old(P[c]))
      ensures Counters(P[s], old(P[s].count) + 1, old(P[s].inv), old(P[s].tCount), old(P[s].invT), old(P[s].split))
      ensures if old(P[s].count) + 1 == old(P[b].tCount)
              then Counters(P[b], old(P[b].count - P[s].count) - 1, old(P[b].inv - P[b].invT), 0, 0, NULL)
              else SameCounters(P[b], old(P[b]))
    {
      hide LinkOK, AgendaOK, ChainOK, InChain, InvOK;
      MoveLinks(x, b, s);
      ghost var p0 := P[..];
      P[s] := P[s].(count := P[s].count + 1);
      if P[s].count == P[b].tCount {
        P[b] := P[b].(count := P[b].count - P[s].count, inv := P[b].inv - P[b].invT, split := NULL, tCount := 0,
                      invT := 0);
      }
      CoreFrame(p0, P[..]);
    }

    // First pass: every touched state is counted in its block.
    method Touch(move: array<int>, j: nat)
      requires Core() && Settled() && j <= move.Length && AllBelow(move[..j], n) && NoDup(move[..j])
      modifies P
      ensures Core()
      ensures forall b :: 0 <= b < pNext ==> SameLinks(P[b], old(P[b]))
      ensures forall b :: 0 <= b < pNext ==> Stage(E[..], inv, Elements(move[..j]), {}, P[..], b, NULL)
    {
      hide LinkOK, AgendaOK, ChainOK, InChain, Stage, CountOK;
      ghost var e, p0 := E[..], P[..];
      GroupsInRange(e, p0, lists);
      forall b | 0 <= b < pNext ensures Tallied(e, inv, {}, p0[b], p0[b], b) {
        NothingTouched(e, inv, p0, b);
      }
      for i := 0 to j
        invariant |P[..]| == |p0| && (forall b :: 0 <= b < |p0| ==> SameLinks(p0[b], P[b]))
        invariant forall b :: 0 <= b < pNext ==> Tallied(e, inv, Elements(move[..i]), p0[b], P[b], b)
      {
        ghost var D := Elements(move[..i]);
        assert move[..i + 1] == move[..i] + [move[i]];
        assert move[i] == move[..j][i];
        var x := move[i];
        var g := E[x].group;
        assert x !in D;
        assert Elements(move[..i + 1]) == D + {x};
        P[g] := P[g].(tCount := P[g].tCount + 1);
        P[g] := P[g].(invT := P[g].invT + E[x].inv);
        forall b | 0 <= b < pNext ensures Tallied(e, inv, D + {x}, p0[b], P[b], b) {
          TouchedAdd(e, inv, D, x, b);
        }
        TouchedSize(e, D + {x}, g);
        assert P[g].tCount <= P[g].count by { CountOfMembers(e, p0, g, inv); }
      }
      forall b | 0 <= b < pNext ensures Stage(e, inv, Elements(move[..j]), {}, P[..], b, NULL) {
        TalliedIsStage(e, inv, Elements(move[..j]), p0, P[..], b);
      }
      CoreFrame(p0, P[..]);
    }

    // A fresh, still empty block for the touched part of b; x will be its
    // first state.
    method NewBlock(x: int, b: int) returns (s: int)
      requires Core() && 0 <= b < pNext <= n
      modifies this`pNext, this`lists, P
      ensures Core()
      ensures s == old(pNext) && pNext == s + 1 && lists == old(lists) + [[]] && AllBelow(chain, s)
      ensures P[s] == Block(x, x, NULL, NULL, NULL, 0, 0, old(P[b].invT), 0)
      ensures P[b] == old(P[b]).(split := s)
      ensures forall c :: 0 <= c < P.Length && c != b && c != s ==> P[c] == old(P[c])
    {
      hide LinkOK, AgendaOK, ChainOK, InChain, InvOK;
      ghost var p0, l0 := P[..], lists;
      s := pNext;
      pNext := pNext + 1;
      P[b] := P[b].(split := s);
      P[s] := Block(x, x, NULL, NULL, NULL, 0, 0, P[b].invT, 0);
      lists := lists + [[]];
      LinkFrame(E[..], p0, l0, P[..], lists);
      AgendaFrame(A[..], p0, agenda, entries, aNext, s, P[..], pNext);
      ChainGrow(p0, head, chain, s, P[..], pNext);
    }

    // Which of the two parts of the block b go on the agenda.
    method Enqueue(b: int, s: int) returns (selfsplit: bool)
      requires Core() && 0 <= b < pNext && 0 <= s < pNext && b != s && P[s].agenda == NULL && aNext + 1 < A.Length
      modifies this`aNext, this`agenda, this`entries, A, P
      ensures Core()
      ensures forall c :: 0 <= c < P.Length ==> P[c] == old(P[c]).(agenda := P[c].agenda)
      ensures selfsplit <==> old(P[b].agenda) == NULL && b == currentW
      ensures Requeued(b, s, selfsplit)
    {
      hide LinkOK, AgendaOK, ChainOK, InChain, InvOK, Requeued;
      ghost var p0 := P[..];
      if P[b].agenda != NULL {
        EnqueuePending(b, s);
        selfsplit := false;
      } else if b == currentW {
        EnqueueCurrent(b, s);
        selfsplit := true;
      } else {
        EnqueueIdle(b, s);
        selfsplit := false;
      }
      LinkFrame(E[..], p0, lists, P[..], lists);
      ChainFrame(p0, head, chain, pNext, P[..]);
    }

    // The new block goes into the middle of the chain.
    method InsertChain(s: int)
      requires Core() && AllBelow(chain, s) && pNext == s + 1 <= n + 1
      modifies this`chain, P
      ensures Core() && s in chain && (forall c :: c in old(chain) ==> c in chain)
      ensures forall c :: 0 <= c < P.Length ==> P[c] == old(P[c]).(next := P[c].next)
    {
      hide LinkOK, AgendaOK, InChain, InvOK;
      ghost var p0 := P[..];
      ChainShrink(p0, head, chain, s);
      P[s] := P[s].(next := P[head].next);
      P[head] := P[head].(next := s);
      ghost var chain' := [head, s] + chain[1..];
      ChainInsert(p0, head, chain, s, P[..]);
      ChainStillCovers(E[..], chain, chain');
      assert chain'[1] == s;
      chain := chain';
      LinkFrame(E[..], p0, lists, P[..], lists);
      AgendaFrame(A[..], p0, agenda, entries, aNext, pNext, P[..], pNext);
    }

    // Everything that happens when the first touched state x of b is met.
    method StartSplit(x: int, b: int) returns (s: int, selfsplit: bool)
      requires Core() && 0 <= b < pNext <= n && aNext + 1 < A.Length
      modifies this`pNext, this`lists, this`aNext, this`agenda, this`entries, this`chain, A, P
      ensures Core() && s == old(pNext) && pNext == s + 1 && lists == old(lists) + [[]]
      ensures s in chain && (forall c :: c in old(chain) ==> c in chain)
      ensures P[s].first == P[s].last == x && Counters(P[s], 0, old(P[b].invT), 0, 0, NULL)
      ensures Counters(P[b], old(P[b].count), old(P[b].inv), old(P[b].tCount), old(P[b].invT), s)
      ensures forall c :: 0 <= c < P.Length && c != b && c != s ==> SameCounters(P[c], old(P[c]))
      ensures selfsplit <==> old(P[b].agenda) == NULL && b == currentW
      ensures old(aNext) <= aNext <= old(aNext) + 2
      ensures old(P[b].inv >= P[b].invT) ==>
        && A[..old(aNext)] == old(A[..aNext])
        && (forall c :: 0 <= c < s && (c == b ==> !selfsplit) ==> P[c].agenda == old(P[c].agenda))
        && old(aNext) <= P[s].agenda < aNext && !A[P[s].agenda].resume
        && (selfsplit ==> old(aNext) <= P[b].agenda < aNext && A[P[b].agenda].resume)
    {
      hide LinkOK, AgendaOK, ChainOK, InChain, InvOK;
      s := NewBlock(x, b);
      selfsplit := Enqueue(b, s);
      InsertChain(s);
    }

    // The loop of the second pass, with the states of D treated.
    ghost predicate Running(E0: seq<Elem>, X: set<int>, D: set<int>, nb: seq<int>, par: seq<int>)
      reads this, E, P, A
    {
      && Linked() && D <= X
      && Splitting(E0, inv, X, D, nb, par, E[..], P[..], pNext)
      && (forall s :: |nb| <= s < pNext ==> lists[s] != [] && s in chain)
    }

    // What the call has done to the agenda: a0 and g0 are its entries and the
    // agenda fields of the blocks at the start.
    ghost predicate Queued(a0: seq<Entry>, g0: seq<int>, nb: seq<int>, selfsplit: bool)
      reads this, P, A
    {
      && |g0| == |nb| <= pNext <= P.Length && |a0| <= aNext <= A.Length && A[..|a0|] == a0
      && (selfsplit <==> 0 <= currentW < |g0| && g0[currentW] == NULL && nb[currentW] != NULL)
      && (forall b :: 0 <= b < |g0| && (b == currentW ==> !selfsplit) ==> P[b].agenda == g0[b])
      && (forall s :: |nb| <= s < pNext ==> |a0| <= P[s].agenda < aNext && !A[P[s].agenda].resume)
      && (selfsplit ==> |a0| <= P[currentW].agenda < aNext && A[P[currentW].agenda].resume)
    }

    method CutOff(x: int, ghost E0: seq<Elem>, ghost X: set<int>, ghost D: set<int>, ghost nb: seq<int>,
                  ghost par: seq<int>,
                  ghost a0: seq<Entry>, ghost g0: seq<int>, ghost self0: bool, b: int)
      returns (s: int, selfsplit: bool, ghost nb': seq<int>, ghost par': seq<int>)
      requires Core() && Splitting(E0, inv, X, D, nb, par, E[..], P[..], pNext) && Queued(a0, g0, nb, self0)
      requires 0 <= b < |nb| && nb[b] == NULL && P[b].inv >= P[b].invT
      requires pNext <= totalStates < n && aNext + 2 <= 2 * totalStates
      modifies this`pNext, this`lists, this`aNext, this`agenda, this`entries, this`chain, A, P
      ensures Core() && s == old(pNext) && pNext == s + 1
      ensures nb' == nb[b := s] && par' == par + [b] && Mapped(nb', par', pNext)
      ensures Queued(a0, g0, nb', self0 || selfsplit) && aNext <= 2 * totalStates
      ensures lists == old(lists) + [[]] && P[s].first == P[s].last == x
      ensures s in chain && (forall c :: c in old(chain) ==> c in chain)
      ensures Counters(P[s], 0, old(P[b].invT), 0, 0, NULL)
      ensures Counters(P[b], old(P[b].count), old(P[b].inv), old(P[b].tCount), old(P[b].invT), s)
      ensures forall c :: 0 <= c < P.Length && c != b && c != s ==> SameCounters(P[c], old(P[c]))
      ensures forall c :: 0 <= c < s && c != b ==> P[c].agenda == old(P[c].agenda)
    {
      hide LinkOK, AgendaOK, ChainOK, InChain, InvOK, Stage, NewGroup, Mapped;
      MappedMore(nb, par, pNext, b);
      s, selfsplit := StartSplit(x, b);
      nb' := nb[b := s];
      par' := par + [b];
    }

    // x joins the new block s of its block b.
    method JoinNew(x: int, b: int, s: int, ghost u: int, ghost E0: seq<Elem>, ghost X: set<int>, ghost D: set<int>,
                   ghost nb: seq<int>, ghost par: seq<int>, ghost a0: seq<Entry>, ghost g0: seq<int>, ghost self: bool)
      requires Core() && Ready(E0, inv, X, D, nb, par, E[..], P[..], pNext, b, s) && Queued(a0, g0, nb, self)
      requires 0 <= x < n == |E0| && x in X && x !in D && D <= X && E0[x].group == E[x].group == b
      requires 0 <= b < |nb| <= s < pNext && 0 <= u < n && u != x && E[u].group == b
      requires lists[s] == [] ==> P[s].first == P[s].last == x
      requires forall c :: |nb| <= c < pNext ==> (lists[c] != [] || c == s) && c in chain
      requires QueuedFull(P[..], lists, s)
      requires totalStates < n && pNext <= totalStates + 1 && aNext <= 2 * totalStates
      requires |Elements(Groups(E[..]))| == if exists y :: 0 <= y < n
                                                           && E[y].group == s then totalStates else totalStates - 1
      modifies this`lists, E, P
      ensures Running(E0, X, D + {x}, nb, par) && Queued(a0, g0, nb, self)
    {
      hide LinkOK, AgendaOK, ChainOK, InChain, InvOK, Stage, Splitting, Mapped, Ready;
      ghost var e0, p0 := E[..], P[..];
      MoveState(x, b, s);
      ListHas(E[..], P[..], lists, u);
      ReadyMoved(E0, inv, X, D, nb, par, e0, E[..], p0, P[..], pNext, x, b, s);
      ClassesAfterMove(e0, E[..], x, u, s);
    }

    // The new block for the touched part of b, opened when its first state x
    // is met -- unless the cut would leave only singletons.
    method Open(x: int, b: int, ghost u: int, ghost E0: seq<Elem>, ghost X: set<int>, ghost D: set<int>,
                ghost nb: seq<int>,
                ghost par: seq<int>, ghost a0: seq<Entry>, ghost g0: seq<int>, ghost self0: bool)
      returns (stop: bool, s: int, selfsplit: bool, ghost nb': seq<int>, ghost par': seq<int>)
      requires Running(E0, X, D, nb, par) && Queued(a0, g0, nb, self0) && totalStates < n
      requires 0 <= x < n == |E0| && x in X && x !in D && E0[x].group == E[x].group == b && 0 <= b < |nb| <= pNext
      requires Touched(E0, X, b) != Members(E0, b) && nb[b] == NULL && P[b].inv >= P[b].invT
      modifies this`pNext, this`lists, this`aNext, this`agenda, this`entries, this`chain, this`totalStates, A, P
      ensures stop ==> totalStates == n && SplitApart(E0, X)
      ensures !stop ==> totalStates == old(totalStates) + 1 < n && aNext <= 2 * totalStates
      ensures !stop ==> Core() && s == old(pNext) && pNext == s + 1 <= totalStates + 1 && |nb'| == |nb|
      ensures !stop ==> lists[s] == [] && P[s].first == P[s].last == x && Queued(a0, g0, nb', self0 || selfsplit)
      ensures !stop ==> Ready(E0, inv, X, D, nb', par', E[..], P[..], pNext, b, s)
      ensures !stop ==> forall c :: |nb| <= c < pNext ==> (lists[c] != [] || c == s) && c in chain
      ensures !stop ==> QueuedFull(P[..], lists, s) && forall y :: 0 <= y < n ==> E[y].group != s
    {
      hide LinkOK, AgendaOK, ChainOK, InChain, InvOK, Stage, Splitting, Mapped, Ready, SplitApart, QueuedFull;
      stop, s, selfsplit, nb', par' := false, NULL, false, nb, par;
      totalStates := totalStates + 1;
      if totalStates == n {
        AllApart(E0, inv, X, D, nb, par, E[..], P[..], pNext, x);
        stop := true;
      } else {
        s, selfsplit, nb', par' := OpenBlock(x, b, E0, X, D, nb, par, a0, g0, self0);
      }
    }

    // The block is cut off; no state has moved there yet.
    method OpenBlock(x: int, b: int, ghost E0: seq<Elem>, ghost X: set<int>, ghost D: set<int>, ghost nb: seq<int>,
                     ghost par: seq<int>, ghost a0: seq<Entry>, ghost g0: seq<int>, ghost self0: bool)
      returns (s: int, selfsplit: bool, ghost nb': seq<int>, ghost par': seq<int>)
      requires Core() && QueuedFull(P[..], lists, NULL) && D <= X
      requires Splitting(E0, inv, X, D, nb, par, E[..], P[..], pNext) && Queued(a0, g0, nb, self0)
      requires forall s :: |nb| <= s < pNext ==> lists[s] != [] && s in chain
      requires pNext <= totalStates < n && aNext + 2 <= 2 * totalStates
      requires 0 <= x < n == |E0| && x in X && x !in D && E0[x].group == E[x].group == b && 0 <= b < |nb| <= pNext
      requires Touched(E0, X, b) != Members(E0, b) && nb[b] == NULL && P[b].inv >= P[b].invT
      modifies this`pNext, this`lists, this`aNext, this`agenda, this`entries, this`chain, A, P
      ensures aNext <= 2 * totalStates && Core() && s == old(pNext) && pNext == s + 1 && |nb'| == |nb|
      ensures lists[s] == [] && P[s].first == P[s].last == x && Queued(a0, g0, nb', self0 || selfsplit)
      ensures Ready(E0, inv, X, D, nb', par', E[..], P[..], pNext, b, s)
      ensures forall c :: |nb| <= c < pNext ==> (lists[c] != [] || c == s) && c in chain
      ensures QueuedFull(P[..], lists, s) && forall y :: 0 <= y < n ==> E[y].group != s
    {
      hide LinkOK, AgendaOK, ChainOK, InChain, InvOK, Stage, Splitting, Mapped, Ready, QueuedFull, Queued;
      ghost var e0, p0, b0, l0 := E[..], P[..], pNext, lists;
      GroupsInRange(e0, p0, l0);
      ListHas(e0, p0, l0, x);
      s, selfsplit, nb', par' := CutOff(x, E0, X, D, nb, par, a0, g0, self0, b);
      StillQueued(p0, P[..], l0, b);
      ReadyFirst(E0, inv, X, D, nb, par, e0, p0, P[..], b0, x, nb', par');
    }

    // The touched state x of a block that is only partly touched goes to the
    // new block for it.
    method Separate(x: int, b: int, ghost E0: seq<Elem>, ghost X: set<int>, ghost D: set<int>, ghost nb: seq<int>,
                    ghost par: seq<int>, ghost a0: seq<Entry>, ghost g0: seq<int>, ghost self0: bool)
      returns (stop: bool, selfsplit: bool, ghost nb': seq<int>, ghost par': seq<int>)
      requires Running(E0, X, D, nb, par) && Queued(a0, g0, nb, self0) && totalStates < n
      requires 0 <= x < n == |E0| && x in X && x !in D && E0[x].group == E[x].group == b && 0 <= b < |nb| <= pNext
      requires Touched(E0, X, b) != Members(E0, b) && P[b].split == nb[b] && (nb[b] == NULL || |nb| <= nb[b] < pNext)
      requires P[b].inv >= P[b].invT
      modifies this`pNext, this`lists, this`aNext, this`agenda, this`entries, this`chain, this`totalStates, E, P, A
      ensures stop ==> totalStates == n && SplitApart(E0, X)
      ensures !stop ==> totalStates < n && Running(E0, X, D + {x}, nb', par') && Queued(a0, g0, nb', self0 || selfsplit)
                        && |nb'| == |nb|
    {
      hide LinkOK, AgendaOK, ChainOK, InChain, InvOK, Stage, Splitting, Mapped, Ready, SplitApart;
      ghost var e0, p0, l0 := E[..], P[..], lists;
      stop, selfsplit, nb', par' := false, false, nb, par;
      var s := P[b].split;
      ghost var u := Untouched(E0, inv, X, D, nb, par, e0, p0, pNext, b);
      if s == NULL {
        stop, s, selfsplit, nb', par' := Open(x, b, u, E0, X, D, nb, par, a0, g0, self0);
        if stop {
          return;
        }
      } else {
        ReadyAgain(E0, inv, X, D, nb, par, e0, p0, pNext, x);
        MemberOfList(e0, p0, l0, s);
      }
      JoinNew(x, b, s, u, E0, X, D, nb', par', a0, g0, self0 || selfsplit);
    }

    // Second pass, one touched state.  stop: the classes are known to be
    // singletons and the state is abandoned half way.
    method TreatState(x: int, ghost E0: seq<Elem>, ghost X: set<int>, ghost D: set<int>, ghost nb: seq<int>,
                      ghost par: seq<int>,
                      ghost a0: seq<Entry>, ghost g0: seq<int>, ghost self0: bool)
      returns (stop: bool, selfsplit: bool, ghost nb': seq<int>, ghost par': seq<int>)
      requires Running(E0, X, D, nb, par) && Queued(a0, g0, nb, self0) && totalStates < n
      requires 0 <= x < n && x in X && x !in D
      modifies this`pNext, this`lists, this`aNext, this`agenda, this`entries, this`chain, this`totalStates, E, P, A
      ensures stop ==> totalStates == n && SplitApart(E0, X)
      ensures !stop ==> totalStates < n && Running(E0, X, D + {x}, nb', par') && Queued(a0, g0, nb', self0 || selfsplit)
                        && |nb'| == |nb|
    {
      hide LinkOK, AgendaOK, ChainOK, InChain, InvOK, Stage, Splitting, Mapped;
      ghost var p0 := P[..];
      var b := E[x].group;
      stop, selfsplit, nb', par' := false, false, nb, par;
      SplittingAt(E0, inv, X, D, nb, par, E[..], p0, pNext, x);
      StageCases(E0, inv, X, D, p0, b, nb[b], x);
      if P[b].tCount == P[b].count {
        P[b] := P[b].(tCount := 0, invT := 0);
        CoreFrame(p0, P[..]);
        SplittingReset(E0, inv, X, D, nb, par, E[..], p0, P[..], pNext, x);
      } else if P[b].tCount != P[b].count && P[b].count > 1 && P[b].tCount > 0 {
        TouchedSize(E0, X, b);
        WeightDifference(inv, Members(E0, b), Touched(E0, X, b), n);
        stop, selfsplit, nb', par' := Separate(x, b, E0, X, D, nb, par, a0, g0, self0);
      } else {
        SplittingReset(E0, inv, X, D, nb, par, E[..], p0, p0, pNext, x);
      }
    }

    // Second pass: the touched part of every partly touched block becomes a
    // block of its own.  The result tells whether the current block was cut.
    method Split(move: array<int>, j: nat, ghost X: set<int>) returns (selfsplit: bool)
      requires Linked() && totalStates < n && 0 <= currentW < pNext
      requires j <= move.Length && AllBelow(move[..j], n) && NoDup(move[..j]) && X == Elements(move[..j])
      requires forall b :: 0 <= b < pNext ==> Stage(E[..], inv, X, {}, P[..], b, NULL)
      modifies this`pNext, this`lists, this`aNext, this`agenda, this`entries, this`chain, this`totalStates, E, P, A
      ensures totalStates <= n && (totalStates == n ==> SplitApart(old(E[..]), X))
      ensures totalStates < n ==> Linked() && Settled() && old(pNext) <= pNext <= P.Length
                                  && old(aNext) <= aNext <= A.Length
      ensures totalStates < n ==> IsSplit(old(Groups(E[..])), old(pNext), X, Groups(E[..]))
      ensures totalStates < n ==> A[..old(aNext)] == old(A[..aNext])
      ensures totalStates < n ==> forall b :: 0 <= b < old(pNext) && (b == currentW ==> !selfsplit) ==>
                                                P[b].agenda == old(P[b].agenda)
      ensures totalStates < n ==>
        forall s :: old(pNext) <= s < pNext ==> old(aNext) <= P[s].agenda < aNext && !A[P[s].agenda].resume
      ensures totalStates < n && selfsplit ==> old(aNext) <= P[currentW].agenda < aNext && A[P[currentW].agenda].resume
      ensures totalStates < n && selfsplit ==> old(P[currentW].agenda) == NULL
      ensures totalStates < n && !selfsplit && old(P[currentW].agenda) == NULL ==>
        Members(E[..], currentW) == old(Members(E[..], currentW))
    {
      hide Running, Queued, LinkOK, AgendaOK, ChainOK, InChain, InvOK, Settled, IsSplit, Stage, AllBelow, NoDup;
      ghost var E0, a0 := E[..], A[..aNext];
      ghost var g0, nb, par := AgendaFields(P[..], pNext), NoSplits(pNext), [];
      Begin(X);
      assert Elements(move[..0]) == {};
      selfsplit := false;
      for i := 0 to j
        invariant totalStates < n && Running(E0, X, Elements(move[..i]), nb, par) && |nb| == old(pNext)
        invariant Queued(a0, g0, nb, selfsplit) && currentW == old(currentW)
      {
        var x := move[i];
        PrefixStep(move[..], j, i, n);
        var stop, self, nb', par' := TreatState(x, E0, X, Elements(move[..i]), nb, par, a0, g0, selfsplit);
        if stop {
          return true;
        }
        if self {
          selfsplit := true;
        }
        nb, par := nb', par';
      }
      Finish(E0, X, nb, par, a0, g0, selfsplit);
    }

    lemma Begin(X: set<int>)
      requires Linked()
      requires forall b :: 0 <= b < pNext ==> Stage(E[..], inv, X, {}, P[..], b, NULL)
      ensures Running(E[..], X, {}, NoSplits(pNext), [])
      ensures 0 <= currentW < pNext ==> Queued(A[..aNext], AgendaFields(P[..], pNext), NoSplits(pNext), false)
    {
      hide AgendaOK, ChainOK, InChain, InvOK, Stage, Splitting;
      GroupsInRange(E[..], P[..], lists);
      SplittingStart(E[..], inv, X, P[..], pNext);
    }

    lemma Finish(E0: seq<Elem>, X: set<int>, nb: seq<int>, par: seq<int>, a0: seq<Entry>, g0: seq<int>, selfsplit: bool)
      requires Running(E0, X, X, nb, par) && Queued(a0, g0, nb, selfsplit)
      ensures Linked() && Settled() && |nb| <= pNext && |a0| <= aNext
      ensures IsSplit(Groups(E0), |nb|, X, Groups(E[..]))
      ensures A[..|a0|] == a0 && |g0| == |nb|
      ensures forall b :: 0 <= b < |nb| && (b == currentW ==> !selfsplit) ==> P[b].agenda == g0[b]
      ensures forall s :: |nb| <= s < pNext ==> |a0| <= P[s].agenda < aNext && !A[P[s].agenda].resume
      ensures selfsplit ==> |a0| <= P[currentW].agenda < aNext && A[P[currentW].agenda].resume
      ensures selfsplit ==> 0 <= currentW < |g0| && g0[currentW] == NULL
      ensures !selfsplit && 0 <= currentW < |g0| && g0[currentW] == NULL ==>
                Members(E[..], currentW) == Members(E0, currentW)
    {
      hide LinkOK, AgendaOK, ChainOK, InChain, InvOK, Stage, Splitting, IsSplit;
      forall b | 0 <= b < pNext ensures CountOK(E[..], P[..], b, inv) && Quiet(P[b]) {
        AllMovedCounts(E0, inv, X, nb, par, E[..], P[..], pNext, b);
      }
      SplittingEnd(E0, inv, X, nb, par, E[..], P[..], pNext);
      if !selfsplit && 0 <= currentW < |g0| && g0[currentW] == NULL {
        AllMovedKept(E0, inv, X, nb, par, E[..], P[..], pNext, currentW);
      }
    }

    // refine_states: cuts every block by the set of the first j states of
    // move.  totalStates == n on return means that no two states are
    // equivalent, and the partition itself is left unfinished.
    method RefineStates(move: array<int>, j: nat) returns (selfsplit: bool)
      requires Linked() && Settled() && totalStates < n && 0 <= currentW < pNext && P[currentW].agenda == NULL
      requires j <= move.Length && AllBelow(move[..j], n) && NoDup(move[..j])
      modifies this`pNext, this`lists, this`aNext, this`agenda, this`entries, this`chain, this`totalStates, E, P, A
      ensures totalStates <= n && (totalStates == n ==> SplitApart(old(E[..]), Elements(move[..j])))
      ensures totalStates < n ==>
        && Linked() && Settled() && old(pNext) <= pNext && old(aNext) <= aNext
        && IsSplit(old(Groups(E[..])), old(pNext), Elements(move[..j]), Groups(E[..]))
        && A[..old(aNext)] == old(A[..aNext])
        && (forall b :: 0 <= b < old(pNext) && (b == currentW ==> !selfsplit) ==> P[b].agenda == old(P[b].agenda))
        && (forall s :: old(pNext) <= s < pNext ==> old(aNext) <= P[s].agenda < aNext && !A[P[s].agenda].resume)
        && (selfsplit ==> old(aNext) <= P[currentW].agenda < aNext && A[P[currentW].agenda].resume)
        && (!selfsplit ==> Members(E[..], currentW) == old(Members(E[..], currentW)))
    {
      hide LinkOK, AgendaOK, ChainOK, InChain, InvOK, CountOK, IsSplit, Stage, SplitApart;
      Touch(move, j);
      selfsplit := Split(move, j, Elements(move[..j]));
    }

    // The next block to split with.
    method PopAgenda() returns (w: int, resume: bool)
      requires Linked() && Settled() && agenda != NULL
      modifies this`agenda, this`currentW, this`entries, this`popped, P
      ensures Linked() && Settled() && currentW == w && 0 <= w < pNext
      ensures P[w] == old(P[w]).(agenda := NULL) && (forall c :: 0 <= c < P.Length && c != w ==> P[c] == old(P[c]))
      ensures 0 <= old(P[w].agenda) < A.Length && resume == A[old(P[w].agenda)].resume
      ensures old(entries) != [] && entries == old(entries)[1..] && popped == old(popped) + 1
    {
      hide LinkOK, ChainOK, InChain, InvOK, AgendaOK, Members, Weight, Groups, Elements, AllBelow;
      ghost var p0 := P[..];
      AgendaHead(A[..], p0, agenda, entries, aNext, pNext);
      w, resume := A[agenda].p, A[agenda].resume;
      currentW := w;
      P[w] := P[w].(agenda := NULL);
      AgendaPop(A[..], p0, agenda, entries, aNext, pNext, P[..]);
      agenda := A[agenda].next;
      entries := entries[1..];
      popped := popped + 1;
      LinkFrame(E[..], p0, lists, P[..], lists);
      ChainFrame(p0, head, chain, pNext, P[..]);
    }

    // Changing counters leaves the structure alone.
    lemma CoreFrame(p0: seq<Block>, p1: seq<Block>)
      requires p1 == P[..] && |p0| == |p1|
      requires E.Length == n == |inv| && P.Length == n + 1 && A.Length == 2 * n && |lists| == pNext
      requires popped + |entries| == aNext
      requires LinkOK(E[..], p0, lists) && AgendaOK(A[..], p0, agenda, entries, aNext, pNext)
      requires ChainOK(p0, head, chain, pNext) && InChain(E[..], chain) && InvOK(E[..], inv)
      requires forall c :: 0 <= c < |p1| ==> SameLinks(p0[c], p1[c])
      ensures Core()
    {
      LinkFrame(E[..], p0, lists, p1, lists);
      AgendaFrame(A[..], p0, agenda, entries, aNext, pNext, p1, pNext);
      ChainFrame(p0, head, chain, pNext, p1);
    }
  }

  // p is block b of p0 after the states of D have been counted.
  ghost predicate Tallied(E0: seq<Elem>, inv: seq<nat>, D: set<int>, p0: Block, p: Block, b: int)
    requires |inv| == |E0|
  {
    && p.count == p0.count && p.inv == p0.inv && p.split == NULL
    && p.tCount == |Touched(E0, D, b)| && p.invT == Weight(inv, Touched(E0, D, b), |inv|)
  }

  lemma GroupsInRange(E: seq<Elem>, P: seq<Block>, lists: seq<seq<int>>)
    requires LinkOK(E, P, lists)
    ensures forall x :: 0 <= x < |E| ==> 0 <= E[x].group < |lists|
  {
  }

  lemma NothingTouched(E0: seq<Elem>, inv: seq<nat>, P: seq<Block>, b: int)
    requires 0 <= b < |P| && |inv| == |E0| && Quiet(P[b])
    ensures Tallied(E0, inv, {}, P[b], P[b], b)
  {
    assert Touched(E0, {}, b) == {};
    WeightEmpty(inv, |inv|);
  }

  lemma CountOfMembers(E0: seq<Elem>, P: seq<Block>, b: int, inv: seq<nat>)
    requires 0 <= b < |P| && |inv| == |E0| && CountOK(E0, P, b, inv)
    ensures P[b].count == |Members(E0, b)|
  {
  }

  lemma TalliedIsStage(E0: seq<Elem>, inv: seq<nat>, X: set<int>, p0: seq<Block>, P: seq<Block>, b: int)
    requires 0 <= b < |P| == |p0| && |inv| == |E0| && CountOK(E0, p0, b, inv)
    requires Tallied(E0, inv, X, p0[b], P[b], b)
    ensures Stage(E0, inv, X, {}, P, b, NULL)
  {
    assert Touched(E0, X, b) * {} == {};
  }

  ghost function AgendaFields(P: seq<Block>, k: nat): seq<int>
    requires k <= |P|
  {
    seq(k, b requires 0 <= b < k => P[b].agenda)
  }

  lemma PrefixStep(move: seq<int>, j: nat, i: nat, n: nat)
    requires i < j <= |move| && NoDup(move[..j]) && AllBelow(move[..j], n)
    ensures Elements(move[..i + 1]) == Elements(move[..i]) + {move[i]}
    ensures move[i] !in Elements(move[..i]) && move[i] in Elements(move[..j]) && 0 <= move[i] < n
  {
    assert move[..i + 1] == move[..i] + [move[i]];
    assert move[..j][i] == move[i];
  }

  // States of one old class are told apart by X.
  ghost predicate SplitApart(E0: seq<Elem>, X: set<int>) {
    forall p, q :: 0 <= p < |E0| && 0 <= q < |E0| && p != q && E0[p].group == E0[q].group ==> (p in X <==> q !in X)
  }

  lemma AllApart(E0: seq<Elem>, inv: seq<nat>, X: set<int>, D: set<int>, nb: seq<int>, par: seq<int>,
                 E: seq<Elem>, P: seq<Block>, blocks: nat, x: int)
    requires Splitting(E0, inv, X, D, nb, par, E, P, blocks) && D <= X && |E0| == |E|
    requires |Elements(Groups(E))| == |E| - 1
    requires 0 <= x < |E| && x in X && x !in D && 0 <= E0[x].group < |nb| && nb[E0[x].group] == NULL
    requires Touched(E0, X, E0[x].group) != Members(E0, E0[x].group)
    ensures SplitApart(E0, X)
  {
    hide Splitting;
    forall p, q | 0 <= p < |E0| && 0 <= q < |E0| && p != q && E0[p].group == E0[q].group ensures p in X <==> q !in X {
      Finest(E0, inv, X, D, nb, par, E, P, blocks, x, p, q);
    }
  }

  // The block cut off last has no states yet; it may be queued already.
  lemma StillQueued(p0: seq<Block>, p1: seq<Block>, lists: seq<seq<int>>, b: int)
    requires QueuedFull(p0, lists, NULL) && |lists| < |p0| == |p1| && 0 <= b < |lists| && lists[b] != []
    requires forall c :: 0 <= c < |lists| && c != b ==> p1[c].agenda == p0[c].agenda
    ensures QueuedFull(p1, lists + [[]], |lists|)
  {
  }

  lemma NeighboursOf(E: seq<Elem>, P: seq<Block>, lists: seq<seq<int>>, x: int, b: int, s: int, k: nat)
    requires LinkOK(E, P, lists) && 0 <= x < |E| && E[x].group == b && b != s && 0 <= s < |lists|
    requires k < |lists[b]| && lists[b][k] == x
    ensures 0 <= b < |P| && s < |P|
    ensures E[x].left == NULL || (0 <= E[x].left < |E| && E[x].left != x && E[E[x].left].group == b)
    ensures E[x].right == NULL || (0 <= E[x].right < |E| && E[x].right != x && E[x].right != E[x].left
                                   && E[E[x].right].group == b)
    ensures lists[s] != [] ==> 0 <= P[s].last < |E| && E[P[s].last].group == s && P[s].last == lists[s][|lists[s]| - 1]
    ensures lists[s] != [] ==> 0 <= P[s].first < |E| && E[P[s].first].group == s
  {
    var l := lists[b];
    assert ListOK(E, P, l, b) && ListOK(E, P, lists[s], s);
    LinksAt(E, P, l, b, k);
    assert k > 0 ==> E[l[k - 1]].group == b && l[k - 1] != l[k];
    assert k < |l| - 1 ==> E[l[k + 1]].group == b && l[k + 1] != l[k];
    assert 0 < k < |l| - 1 ==> l[k - 1] != l[k + 1];
  }
}
