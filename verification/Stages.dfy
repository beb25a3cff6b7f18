// The intermediate states of refine_states: while the touched states D of the
// set X are moved one by one, every old block is untouched, fully touched, or
// somewhere on the way of being cut in two.

module Stages {
  import opened Counting
  import opened Blocks
  import opened Splitters

  // The states of X that lay in block b when the call started.
  ghost function Touched(E0: seq<Elem>, X: set<int>, b: int): set<int> {
    set x | x in X && 0 <= x < |E0| && E0[x].group == b
  }

  // nb[b] is the block split off from b so far, or NULL.
  ghost function NewGroup(E0: seq<Elem>, D: set<int>, nb: seq<int>, x: int): int
    requires 0 <= x < |E0| && 0 <= E0[x].group < |nb|
  {
    if x in D && nb[E0[x].group] != NULL then nb[E0[x].group] else E0[x].group
  }

  ghost predicate Counters(p: Block, count: int, inv: int, tCount: int, invT: int, split: int) {
    p.count == count && p.inv == inv && p.tCount == tCount && p.invT == invT && p.split == split
  }

  ghost predicate Stage(E0: seq<Elem>, inv: seq<nat>, X: set<int>, D: set<int>, P: seq<Block>, b: int, s: int)
    requires |inv| == |E0| && 0 <= b < |P|
  {
    var B, T := Members(E0, b), Touched(E0, X, b);
    var M := T * D;
    var n := |inv|;
    if s == NULL then
      if M == {} then Counters(P[b], |B|, Weight(inv, B, n), |T|, Weight(inv, T, n), NULL)
      else T == B && Counters(P[b], |B|, Weight(inv, B, n), 0, 0, NULL)
    else
      && 0 <= s < |P| && M != {} && T != B
      && Counters(P[s], |M|, Weight(inv, T, n), 0, 0, NULL)
      && if M == T then Counters(P[b], |B| - |T|, Weight(inv, B, n) - Weight(inv, T, n), 0, 0, NULL)
         else Counters(P[b], |B|, Weight(inv, B, n), |T|, Weight(inv, T, n), s)
  }

  ghost predicate SameCounters(p: Block, q: Block) {
    p.count == q.count && p.inv == q.inv && p.tCount == q.tCount && p.invT == q.invT && p.split == q.split
  }

  lemma TouchedSize(E0: seq<Elem>, X: set<int>, b: int)
    ensures Touched(E0, X, b) <= Members(E0, b)
    ensures |Touched(E0, X, b)| <= |Members(E0, b)|
    ensures |Touched(E0, X, b)| == |Members(E0, b)| ==> Touched(E0, X, b) == Members(E0, b)
  {
    SubsetSize(Touched(E0, X, b), Members(E0, b));
  }

  lemma TouchedAdd(E0: seq<Elem>, inv: seq<nat>, D: set<int>, x: int, b: int)
    requires 0 <= x < |E0| && x !in D && |inv| == |E0|
    ensures E0[x].group != b ==> Touched(E0, D + {x}, b) == Touched(E0, D, b)
    ensures E0[x].group == b ==>
      && |Touched(E0, D + {x}, b)| == |Touched(E0, D, b)| + 1
      && Weight(inv, Touched(E0, D + {x}, b), |inv|) == Weight(inv, Touched(E0, D, b), |inv|) + inv[x]
  {
    var T := Touched(E0, D, b);
    if E0[x].group == b {
      assert Touched(E0, D + {x}, b) == T + {x} && x !in T;
      WeightAdd(inv, T, x, |inv|);
    } else {
      assert Touched(E0, D + {x}, b) == T;
    }
  }

  // Blocks other than that of x do not notice that x was treated.
  lemma StageOther(E0: seq<Elem>, inv: seq<nat>, X: set<int>, D: set<int>, P: seq<Block>, P': seq<Block>, b: int,
                   s: int, x: int)
    requires |inv| == |E0| && 0 <= b < |P| == |P'| && Stage(E0, inv, X, D, P, b, s)
    requires 0 <= x < |E0| && E0[x].group != b
    requires SameCounters(P[b], P'[b]) && (0 <= s < |P| ==> SameCounters(P[s], P'[s]))
    ensures Stage(E0, inv, X, D + {x}, P', b, s)
  {
    assert Touched(E0, X, b) * (D + {x}) == Touched(E0, X, b) * D;
  }

  // The counters seen when x is about to be treated decide the case.
  lemma StageCases(E0: seq<Elem>, inv: seq<nat>, X: set<int>, D: set<int>, P: seq<Block>, b: int, s: int, x: int)
    requires |inv| == |E0| && 0 <= b < |P| && Stage(E0, inv, X, D, P, b, s)
    requires 0 <= x < |E0| && E0[x].group == b && x in X && x !in D
    ensures var T, B := Touched(E0, X, b), Members(E0, b);
            && x in T && 0 < |T| <= |B|
            && (P[b].tCount == P[b].count <==> s == NULL && T == B && T * D == {})
            && (P[b].tCount != P[b].count && P[b].tCount > 0 <==> T != B)
            && (T != B ==> P[b].split == s && P[b].tCount == |T| && P[b].count == |B| > 1)
            && (T != B ==> P[b].invT == Weight(inv, T, |inv|) && P[b].inv == Weight(inv, B, |inv|))
            && (T != B && s == NULL ==> T * D == {})
            && (T == B ==> s == NULL && P[b].split == NULL)
            && (T == B && P[b].tCount != P[b].count ==> P[b].tCount == 0 && P[b].invT == 0)
  {
    TouchedSize(E0, X, b);
    assert x in Touched(E0, X, b) && x !in Touched(E0, X, b) * D;
    assert x in Members(E0, b);
  }

  // A fully touched block is only reset.
  lemma StageReset(E0: seq<Elem>, inv: seq<nat>, X: set<int>, D: set<int>, P: seq<Block>, P': seq<Block>, b: int,
                   x: int)
    requires |inv| == |E0| && 0 <= b < |P| == |P'| && Stage(E0, inv, X, D, P, b, NULL)
    requires 0 <= x < |E0| && E0[x].group == b && x in X && Touched(E0, X, b) == Members(E0, b)
    requires Counters(P'[b], P[b].count, P[b].inv, 0, 0, NULL)
    ensures Stage(E0, inv, X, D + {x}, P', b, NULL)
  {
    assert x in Touched(E0, X, b) * (D + {x});
  }

  // One more touched state has moved from b to s; when it was the last one the
  // counters of b are settled.
  lemma StageMoved(E0: seq<Elem>, inv: seq<nat>, X: set<int>, D: set<int>, P': seq<Block>, b: int, s: int, x: int)
    requires |inv| == |E0| && 0 <= b < |P'| && 0 <= s < |P'|
    requires 0 <= x < |E0| && E0[x].group == b && x in X && x !in D
    requires Touched(E0, X, b) != Members(E0, b)
    requires var T, B := Touched(E0, X, b), Members(E0, b);
             && Counters(P'[s], |T * D| + 1, Weight(inv, T, |inv|), 0, 0, NULL)
             && if |T * D| + 1 == |T|
                then Counters(P'[b], |B| - |T|, Weight(inv, B, |inv|) - Weight(inv, T, |inv|), 0, 0, NULL)
                else Counters(P'[b], |B|, Weight(inv, B, |inv|), |T|, Weight(inv, T, |inv|), s)
    ensures Stage(E0, inv, X, D + {x}, P', b, s)
  {
    var T := Touched(E0, X, b);
    assert x in T;
    assert T * (D + {x}) == T * D + {x};
    SubsetSize(T * (D + {x}), T);
  }

  // ---- The whole loop state ----

  ghost predicate Mapped(nb: seq<int>, par: seq<int>, blocks: nat) {
    && blocks == |nb| + |par|
    && AllBelow(par, |nb|)
    && (forall k :: 0 <= k < |par| ==> nb[par[k]] == |nb| + k)
    && (forall b :: 0 <= b < |nb| ==> nb[b] == NULL || (|nb| <= nb[b] < blocks && par[nb[b] - |nb|] == b))
  }

  lemma MappedMore(nb: seq<int>, par: seq<int>, blocks: nat, b: int)
    requires Mapped(nb, par, blocks) && 0 <= b < |nb| && nb[b] == NULL
    ensures Mapped(nb[b := blocks], par + [b], blocks + 1)
  {
    var par' := par + [b];
    forall k | 0 <= k < |par'| ensures nb[b := blocks][par'[k]] == |nb| + k {
      assert k < |par| ==> par'[k] == par[k];
    }
  }

  ghost predicate Splitting(E0: seq<Elem>, inv: seq<nat>, X: set<int>, D: set<int>, nb: seq<int>, par: seq<int>,
                            E: seq<Elem>, P: seq<Block>, blocks: nat)
  {
    && |E| == |E0| == |inv| && |nb| <= blocks <= |P|
    && Mapped(nb, par, blocks)
    && (forall x :: 0 <= x < |E| ==> 0 <= E0[x].group < |nb| && E[x].group == NewGroup(E0, D, nb, x))
    && (forall b :: 0 <= b < |nb| ==> Stage(E0, inv, X, D, P, b, nb[b]))
  }

  lemma SplittingAt(E0: seq<Elem>, inv: seq<nat>, X: set<int>, D: set<int>, nb: seq<int>, par: seq<int>,
                    E: seq<Elem>, P: seq<Block>, blocks: nat, x: int)
    requires Splitting(E0, inv, X, D, nb, par, E, P, blocks)
    requires 0 <= x < |E| && x !in D
    ensures |E0| == |E| == |inv|
    ensures 0 <= E[x].group < |nb| <= |P| && E[x].group == E0[x].group
            && Stage(E0, inv, X, D, P, E[x].group, nb[E[x].group])
    ensures nb[E[x].group] == NULL || |nb| <= nb[E[x].group] < blocks
  {
    assert E[x].group == NewGroup(E0, D, nb, x);
  }

  lemma SplittingReset(E0: seq<Elem>, inv: seq<nat>, X: set<int>, D: set<int>, nb: seq<int>, par: seq<int>,
                       E: seq<Elem>, P: seq<Block>, P': seq<Block>, blocks: nat, x: int)
    requires Splitting(E0, inv, X, D, nb, par, E, P, blocks) && |P'| == |P|
    requires 0 <= x < |E| && x in X && x !in D
    requires var b := E0[x].group;
             && 0 <= b < |nb| && nb[b] == NULL && Touched(E0, X, b) == Members(E0, b)
             && Counters(P'[b], P[b].count, P[b].inv, 0, 0, NULL)
             && forall c :: 0 <= c < |P| && c != b ==> SameCounters(P[c], P'[c])
    ensures Splitting(E0, inv, X, D + {x}, nb, par, E, P', blocks)
  {
    var b := E0[x].group;
    forall c | 0 <= c < |nb| ensures Stage(E0, inv, X, D + {x}, P', c, nb[c]) {
      if c == b {
        StageReset(E0, inv, X, D, P, P', b, x);
      } else {
        StageOther(E0, inv, X, D, P, P', c, nb[c], x);
      }
    }
    forall y | 0 <= y < |E| ensures E[y].group == NewGroup(E0, D + {x}, nb, y) {
      assert E[y].group == NewGroup(E0, D, nb, y);
    }
  }

  // x of block b is about to join s, the new block for the touched part of b.
  ghost predicate Ready(E0: seq<Elem>, inv: seq<nat>, X: set<int>, D: set<int>, nb: seq<int>, par: seq<int>,
                        E: seq<Elem>, P: seq<Block>, blocks: nat, b: int, s: int)
  {
    && |E| == |E0| == |inv| && |nb| <= blocks <= |P| && 0 <= b < |nb| && |nb| <= s < blocks
    && Mapped(nb, par, blocks) && nb[b] == s
    && (forall y :: 0 <= y < |E| ==> 0 <= E0[y].group < |nb| && E[y].group == NewGroup(E0, D, nb, y))
    && (forall c :: 0 <= c < |nb| && c != b ==> Stage(E0, inv, X, D, P, c, nb[c]))
    && var T, B := Touched(E0, X, b), Members(E0, b);
       && T != B
       && Counters(P[s], |T * D|, Weight(inv, T, |inv|), 0, 0, NULL)
       && Counters(P[b], |B|, Weight(inv, B, |inv|), |T|, Weight(inv, T, |inv|), s)
  }

  lemma ReadyAgain(E0: seq<Elem>, inv: seq<nat>, X: set<int>, D: set<int>, nb: seq<int>, par: seq<int>,
                   E: seq<Elem>, P: seq<Block>, blocks: nat, x: int)
    requires Splitting(E0, inv, X, D, nb, par, E, P, blocks)
    requires 0 <= x < |E| && x in X && x !in D
    requires var b := E0[x].group; nb[b] != NULL && Touched(E0, X, b) != Members(E0, b)
    ensures Ready(E0, inv, X, D, nb, par, E, P, blocks, E0[x].group, nb[E0[x].group])
  {
    var b := E0[x].group;
    assert E[x].group == NewGroup(E0, D, nb, x);
    assert Stage(E0, inv, X, D, P, b, nb[b]);
    assert x in Touched(E0, X, b) && x !in Touched(E0, X, b) * D;
  }

  lemma StageSame(E0: seq<Elem>, inv: seq<nat>, X: set<int>, D: set<int>, P: seq<Block>, P': seq<Block>, b: int, s: int)
    requires |inv| == |E0| && 0 <= b < |P| == |P'| && Stage(E0, inv, X, D, P, b, s)
    requires SameCounters(P'[b], P[b]) && (0 <= s < |P| ==> SameCounters(P'[s], P[s]))
    ensures Stage(E0, inv, X, D, P', b, s)
  {
  }

  lemma ReadyFirst(E0: seq<Elem>, inv: seq<nat>, X: set<int>, D: set<int>, nb: seq<int>, par: seq<int>,
                   E: seq<Elem>, P: seq<Block>, P': seq<Block>, blocks: nat, x: int, nb': seq<int>, par': seq<int>)
    requires Splitting(E0, inv, X, D, nb, par, E, P, blocks) && blocks < |P| == |P'|
    requires 0 <= x < |E| && x in X && x !in D && D <= X
    requires var b := E0[x].group;
             && 0 <= b < |nb| && nb[b] == NULL && Touched(E0, X, b) != Members(E0, b)
             && nb' == nb[b := blocks] && par' == par + [b] && Mapped(nb', par', blocks + 1)
             && Counters(P'[blocks], 0, P[b].invT, 0, 0, NULL)
             && Counters(P'[b], P[b].count, P[b].inv, P[b].tCount, P[b].invT, blocks)
    requires forall c :: 0 <= c < |P| && c != E0[x].group && c != blocks ==> SameCounters(P'[c], P[c])
    ensures Ready(E0, inv, X, D, nb', par', E, P', blocks + 1, E0[x].group, blocks)
  {
    var b := E0[x].group;
    assert Stage(E0, inv, X, D, P, b, nb[b]);
    var T := Touched(E0, X, b);
    assert T * D == {};
    forall y | 0 <= y < |E| ensures E[y].group == NewGroup(E0, D, nb', y) {
      assert E[y].group == NewGroup(E0, D, nb, y);
      assert y in D && E0[y].group == b ==> y in T * D;
    }
    forall c | 0 <= c < |nb'| && c != b ensures Stage(E0, inv, X, D, P', c, nb'[c]) {
      assert nb'[c] == nb[c] && (nb[c] == NULL || |nb| <= nb[c] < blocks);
      assert Stage(E0, inv, X, D, P, c, nb[c]);
      StageSame(E0, inv, X, D, P, P', c, nb[c]);
    }
  }

  lemma ReadyMoved(E0: seq<Elem>, inv: seq<nat>, X: set<int>, D: set<int>, nb: seq<int>, par: seq<int>,
                   E: seq<Elem>, E': seq<Elem>, P: seq<Block>, P': seq<Block>, blocks: nat, x: int, b: int, s: int)
    requires Ready(E0, inv, X, D, nb, par, E, P, blocks, b, s) && |P'| == |P|
    requires 0 <= x < |E| == |E'| && x in X && x !in D && E0[x].group == b
    requires forall y :: 0 <= y < |E| ==> E'[y].group == if y == x then s else E[y].group
    requires forall c :: 0 <= c < |P| && c != b && c != s ==> SameCounters(P'[c], P[c])
    requires Counters(P'[s], P[s].count + 1, P[s].inv, P[s].tCount, P[s].invT, P[s].split)
    requires if P[s].count + 1 == P[b].tCount
             then Counters(P'[b], P[b].count - P[s].count - 1, P[b].inv - P[b].invT, 0, 0, NULL)
             else SameCounters(P'[b], P[b])
    ensures Splitting(E0, inv, X, D + {x}, nb, par, E', P', blocks)
  {
    hide Stage;
    forall y | 0 <= y < |E'| ensures E'[y].group == NewGroup(E0, D + {x}, nb, y) {
      assert E[y].group == NewGroup(E0, D, nb, y);
    }
    forall c | 0 <= c < |nb| ensures Stage(E0, inv, X, D + {x}, P', c, nb[c]) {
      if c == b {
        StageMoved(E0, inv, X, D, P', b, s, x);
      } else {
        assert Stage(E0, inv, X, D, P, c, nb[c]);
        assert nb[c] != s;
        StageOther(E0, inv, X, D, P, P', c, nb[c], x);
      }
    }
  }

  // After the last touched state: a real partition again, refined by X.
  lemma AllMovedCounts(E0: seq<Elem>, inv: seq<nat>, X: set<int>, nb: seq<int>, par: seq<int>,
                       E: seq<Elem>, P: seq<Block>, blocks: nat, c: int)
    requires Splitting(E0, inv, X, X, nb, par, E, P, blocks) && 0 <= c < blocks
    ensures CountOK(E, P, c, inv) && Quiet(P[c])
  {
    var b := if c < |nb| then c else par[c - |nb|];
    assert Stage(E0, inv, X, X, P, b, nb[b]);
    var T, B := Touched(E0, X, b), Members(E0, b);
    assert T * X == T;
    TouchedSize(E0, X, b);
    if c >= |nb| {
      AllMovedNew(E0, inv, X, nb, par, E, P, blocks, c);
    } else if nb[b] == NULL {
      AllMovedKept(E0, inv, X, nb, par, E, P, blocks, c);
      WeightEmpty(inv, |inv|);
    } else {
      AllMovedRest(E0, inv, X, nb, par, E, P, blocks, c);
      assert B == T + (B - T);
      assert |B| == |T| + |B - T|;
      WeightDifference(inv, B, T, |inv|);
    }
  }

  lemma AllMovedNew(E0: seq<Elem>, inv: seq<nat>, X: set<int>, nb: seq<int>, par: seq<int>,
                    E: seq<Elem>, P: seq<Block>, blocks: nat, c: int)
    requires Splitting(E0, inv, X, X, nb, par, E, P, blocks) && |nb| <= c < blocks
    ensures Members(E, c) == Touched(E0, X, par[c - |nb|])
  {
    var b := par[c - |nb|];
    forall x | 0 <= x < |E| ensures x in Members(E, c) <==> x in Touched(E0, X, b) {
      assert E[x].group == NewGroup(E0, X, nb, x);
    }
  }

  lemma AllMovedKept(E0: seq<Elem>, inv: seq<nat>, X: set<int>, nb: seq<int>, par: seq<int>,
                     E: seq<Elem>, P: seq<Block>, blocks: nat, c: int)
    requires Splitting(E0, inv, X, X, nb, par, E, P, blocks) && 0 <= c < |nb| && nb[c] == NULL
    ensures Members(E, c) == Members(E0, c)
  {
    forall x | 0 <= x < |E| ensures x in Members(E, c) <==> x in Members(E0, c) {
      assert E[x].group == NewGroup(E0, X, nb, x);
    }
  }

  lemma AllMovedRest(E0: seq<Elem>, inv: seq<nat>, X: set<int>, nb: seq<int>, par: seq<int>,
                     E: seq<Elem>, P: seq<Block>, blocks: nat, c: int)
    requires Splitting(E0, inv, X, X, nb, par, E, P, blocks) && 0 <= c < |nb| && nb[c] != NULL
    ensures Members(E, c) == Members(E0, c) - Touched(E0, X, c)
  {
    forall x | 0 <= x < |E| ensures x in Members(E, c) <==> x in Members(E0, c) && x !in Touched(E0, X, c) {
      assert E[x].group == NewGroup(E0, X, nb, x);
    }
  }

  // A block that is cut has an untouched state, which stays behind.
  lemma Untouched(E0: seq<Elem>, inv: seq<nat>, X: set<int>, D: set<int>, nb: seq<int>, par: seq<int>,
                  E: seq<Elem>, P: seq<Block>, blocks: nat, b: int) returns (u: int)
    requires Splitting(E0, inv, X, D, nb, par, E, P, blocks) && 0 <= b < |nb| && D <= X
    requires Touched(E0, X, b) != Members(E0, b)
    ensures 0 <= u < |E| && E0[u].group == b && u !in X && E[u].group == b
  {
    TouchedSize(E0, X, b);
    u :| u in Members(E0, b) && u !in Touched(E0, X, b);
    assert E[u].group == NewGroup(E0, D, nb, u);
  }

  // All classes but one are singletons and that one is about to be cut: the
  // old classes together with membership in X tell all states apart.
  lemma Finest(E0: seq<Elem>, inv: seq<nat>, X: set<int>, D: set<int>, nb: seq<int>, par: seq<int>,
               E: seq<Elem>, P: seq<Block>, blocks: nat, x: int, p: int, q: int)
    requires Splitting(E0, inv, X, D, nb, par, E, P, blocks) && D <= X
    requires |Elements(Groups(E))| == |E| - 1
    requires 0 <= x < |E| && x in X && x !in D && nb[E0[x].group] == NULL
    requires Touched(E0, X, E0[x].group) != Members(E0, E0[x].group)
    requires 0 <= p < |E| && 0 <= q < |E| && p != q && E0[p].group == E0[q].group
    ensures p in X <==> q !in X
  {
    if p in X <==> q in X {
      var b := E0[x].group;
      var u := Untouched(E0, inv, X, D, nb, par, E, P, blocks, b);
      var g := Groups(E);
      assert g[x] == g[u] == b;
      assert E[p].group == NewGroup(E0, D, nb, p) && E[q].group == NewGroup(E0, D, nb, q);
      if g[p] == g[q] {
        OneShort(g, x, u, p, q);
      } else {
        var d, k := if p in D then p else q, if p in D then q else p;
        var c := E0[p].group;
        assert d in D && k !in D && k in X && nb[c] != NULL;
        assert Stage(E0, inv, X, D, P, c, nb[c]);
        var v := Untouched(E0, inv, X, D, nb, par, E, P, blocks, c);
        assert g[k] == g[v] == c;
        OneShort(g, x, u, k, v);
      }
    }
  }

  // The number of classes when x moves to a class of its own or follows
  // others there.
  lemma ClassesAfterMove(E: seq<Elem>, E': seq<Elem>, x: int, u: int, s: int)
    requires 0 <= x < |E| && 0 <= u < |E| && u != x && E[u].group == E[x].group
    requires |E'| == |E| && forall y :: 0 <= y < |E| ==> E'[y].group == if y == x then s else E[y].group
    ensures (forall y :: 0 <= y < |E| ==> E[y].group != s) ==>
              |Elements(Groups(E'))| == |Elements(Groups(E))| + 1
    ensures (exists y :: 0 <= y < |E| && E[y].group == s) ==>
              |Elements(Groups(E'))| == |Elements(Groups(E))|
  {
    var g, g' := Groups(E), Groups(E');
    GroupsAfterMove(E, E', x, u, s);
    if y :| 0 <= y < |E| && E[y].group == s {
      assert g[y] == s;
      assert Elements(g) + {s} == Elements(g);
    } else {
      assert s !in Elements(g);
    }
  }

  ghost function NoSplits(blocks: nat): seq<int> {
    seq(blocks, _ => NULL)
  }

  lemma SplittingStart(E0: seq<Elem>, inv: seq<nat>, X: set<int>, P: seq<Block>, blocks: nat)
    requires |inv| == |E0| && blocks <= |P|
    requires forall x :: 0 <= x < |E0| ==> 0 <= E0[x].group < blocks
    requires forall b :: 0 <= b < blocks ==> Stage(E0, inv, X, {}, P, b, NULL)
    ensures Splitting(E0, inv, X, {}, NoSplits(blocks), [], E0, P, blocks)
  {
  }

  // The classes after the loop: each old class cut by X.
  lemma SplittingEnd(E0: seq<Elem>, inv: seq<nat>, X: set<int>, nb: seq<int>, par: seq<int>,
                     E: seq<Elem>, P: seq<Block>, blocks: nat)
    requires Splitting(E0, inv, X, X, nb, par, E, P, blocks)
    ensures IsSplit(Groups(E0), |nb|, X, Groups(E)) && ClassesOK(Groups(E), blocks)
  {
    var g0, g := Groups(E0), Groups(E);
    forall p | 0 <= p < |E| ensures g[p] == NewGroup(E0, X, nb, p) && 0 <= g0[p] < |nb|
      && (g[p] == g0[p] || (p in X && |nb| <= g[p] < blocks)) {
      assert E[p].group == NewGroup(E0, X, nb, p);
    }
    forall p, q | 0 <= p < |E| && 0 <= q < |E| ensures g[p] == g[q] <==> g0[p] == g0[q] && (p in X <==> q in X) {
      SameSide(E0, inv, X, nb, par, E, P, blocks, p, q);
    }
  }

  lemma SameSide(E0: seq<Elem>, inv: seq<nat>, X: set<int>, nb: seq<int>, par: seq<int>,
                 E: seq<Elem>, P: seq<Block>, blocks: nat, p: int, q: int)
    requires Splitting(E0, inv, X, X, nb, par, E, P, blocks)
    requires 0 <= p < |E| && 0 <= q < |E|
    ensures E[p].group == E[q].group <==> E0[p].group == E0[q].group && (p in X <==> q in X)
  {
    assert E[p].group == NewGroup(E0, X, nb, p) && E[q].group == NewGroup(E0, X, nb, q);
    var b := E0[p].group;
    if E0[q].group == b && nb[b] == NULL {
      assert Stage(E0, inv, X, X, P, b, NULL);
      var T := Touched(E0, X, b);
      assert T * X == T;
      if T == {} {
        assert p in X ==> p in T;
        assert q in X ==> q in T;
      } else {
        assert p in Members(E0, b) && q in Members(E0, b);
      }
    }
  }
}
