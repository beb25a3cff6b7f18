// e_closure (determinize.c): depth-first search over the memoized 0:0 arcs,
// with stamped tables in place of sets.

module Closure {
  import opened Nets
  import opened Counting
  import opened Powerset

  // targets[p] lists the other states p has 0:0 arcs to.
  ghost predicate Memoized(m: Net, targets: seq<seq<int>>) {
    && |targets| == m.states
    && forall p, q :: 0 <= p < m.states ==> (q in targets[p] <==> 0 <= q < m.states && q != p
                                                                  && Arc(p, EPS, q) in m.arcs)
  }

  ghost predicate ClosedUnder(targets: seq<seq<int>>, a: set<int>) {
    forall p, q :: p in a && 0 <= p < |targets| && q in targets[p] ==> q in a
  }

  lemma {:induction false} PathStaysIn(m: Net, targets: seq<seq<int>>, a: set<int>, p: int, path: seq<Arc>, q: int)
    requires Closed(m) && Memoized(m, targets) && ClosedUnder(targets, a)
    requires p in a && Path(m.arcs, p, path, q) && Word(path) == []
    ensures q in a
    decreases path
  {
    if path != [] {
      var b := path[0];
      assert Word(path) == (if b.letter == EPS then [] else [b.letter]) + Word(path[1..]);
      assert b == Arc(p, EPS, b.dst);
      assert b.dst != p ==> b.dst in targets[p];
      PathStaysIn(m, targets, a, b.dst, path[1..], q);
    }
  }

  // A set between the seeds and their closure that is closed is the closure.
  lemma ClosureReached(m: Net, targets: seq<seq<int>>, seeds: set<int>, a: set<int>)
    requires Closed(m) && Memoized(m, targets) && ClosedUnder(targets, a)
    requires seeds <= a <= EClose(m, seeds)
    ensures a == EClose(m, seeds)
  {
    forall q | q in EClose(m, seeds) ensures q in a {
      var p :| p in seeds && Spells(m.arcs, p, [], q);
      var path :| Path(m.arcs, p, path, q) && Word(path) == [];
      PathStaysIn(m, targets, a, p, path, q);
    }
  }

  lemma SeedInClosure(m: Net, seeds: set<int>, p: int)
    requires p in seeds && 0 <= p < m.states
    ensures p in EClose(m, seeds)
  {
    assert Path(m.arcs, p, [], p) && Word([]) == [];
    assert Spells(m.arcs, p, [], p);
  }

  lemma TargetInClosure(m: Net, targets: seq<seq<int>>, seeds: set<int>, p: int, q: int)
    requires Closed(m) && Memoized(m, targets) && p in EClose(m, seeds) && q in targets[p]
    ensures q in EClose(m, seeds)
  {
    var s :| s in seeds && Spells(m.arcs, s, [], p);
    var path :| Path(m.arcs, s, path, p) && Word(path) == [];
    PathSnoc(m.arcs, s, path, Arc(p, EPS, q));
    assert Spells(m.arcs, s, [], q);
  }

  lemma TargetsBelow(m: Net, targets: seq<seq<int>>, p: int)
    requires Memoized(m, targets) && 0 <= p < m.states
    ensures forall q :: q in targets[p] ==> 0 <= q < m.states
  {
  }

  class Closer {
    const n: nat
    const targets: seq<seq<int>>
    const eTable: array<int>
    const markTable: array<int>
    const mark: array<int>
    const tempMove: array<int>
    var mainloop: int
    ghost const m: Net

    ghost predicate Valid()
      reads this, eTable, markTable, mark, tempMove
    {
      && eTable.Length == markTable.Length == mark.Length == n && tempMove.Length == n + 1
      && eTable != markTable && eTable != mark && eTable != tempMove && markTable != mark && markTable != tempMove
         && mark != tempMove
      && m.states == n == |targets| && Closed(m) && Memoized(m, targets)
    }

    // The first size entries of temp_move are a set, stamped with stamp.
    ghost predicate Listed(size: nat, stamp: int)
      reads this, eTable, tempMove
    {
      && size <= n && eTable.Length == n && tempMove.Length == n + 1
      && NoDup(tempMove[..size]) && AllBelow(tempMove[..size], n)
      && forall x :: 0 <= x < n ==> eTable[x] <= stamp && (eTable[x] == stamp <==> x in tempMove[..size])
    }

    constructor (n: nat, targets: seq<seq<int>>, ghost m: Net)
      requires m.states == n && Closed(m) && Memoized(m, targets)
      ensures Valid() && this.n == n && this.m == m && this.targets == targets
      ensures fresh(eTable) && fresh(markTable) && fresh(mark) && fresh(tempMove)
      ensures mainloop == 1 && Unmarked(1) && forall x :: 0 <= x < n ==> eTable[x] == 0
    {
      this.n := n;
      this.targets := targets;
      this.m := m;
      eTable := new int[n](_ => 0);
      markTable := new int[n](_ => 0);
      mark := new int[n](_ => 0);
      tempMove := new int[n + 1](_ => 0);
      mainloop := 1;
    }

    lemma NothingListed()
      requires Valid() && forall x :: 0 <= x < n ==> eTable[x] < mainloop
      ensures Listed(0, mainloop)
    {
    }

    // One more member for the list, unless it is stamped already.
    method Note(y: int, size0: nat) returns (size: nat)
      requires Valid() && Listed(size0, mainloop) && 0 <= y < n
      modifies eTable, tempMove
      ensures Valid() && Listed(size, mainloop) && Elements(tempMove[..size]) == old(Elements(tempMove[..size0])) + {y}
      ensures old(eTable[y]) != mainloop ==> size == size0 + 1 && tempMove[size0] == y
    {
      hide Memoized, Closed;
      size := size0;
      ghost var list := tempMove[..size];
      if eTable[y] != mainloop {
        NoDupBound(list + [y], n);
        eTable[y] := mainloop;
        tempMove[size] := y;
        size := size + 1;
        assert tempMove[..size] == list + [y];
      }
    }

    // No mark carries the stamp yet.
    ghost predicate Unmarked(stamp: int)
      reads this, markTable, mark
    {
      markTable.Length == mark.Length == n && forall x :: 0 <= x < n ==> markTable[x] < stamp && mark[x] < stamp
    }

    ghost predicate Visited(x: int, stamp: int)
      reads this, markTable
    {
      0 <= x < markTable.Length && markTable[x] == stamp
    }

    // What is listed comes from the seeds, and is a seed or visited; what is
    // visited, but for one state about to be listed, is listed.
    ghost predicate Sound(seeds: set<int>, size: nat, stack: seq<int>, but: int)
      reads this, eTable, markTable, tempMove
    {
      && Listed(size, mainloop) && AllBelow(stack, n) && |targets| == n
      && (forall x :: x in tempMove[..size] || x in stack ==> x in EClose(m, seeds))
      && (forall x :: x in tempMove[..size] ==> x in seeds || Visited(x, mainloop))
      && (forall x :: Visited(x, mainloop) && x != but ==> x in tempMove[..size])
    }

    // Marked states are visited or wait on the stack.
    ghost predicate Marked(stack: seq<int>)
      reads this, markTable, mark
    {
      && mark.Length == markTable.Length == n
      && (forall x :: 0 <= x < n ==> mark[x] <= mainloop && markTable[x] <= mainloop)
      && (forall x :: 0 <= x < n && mark[x] == mainloop ==> Visited(x, mainloop) || x in stack)
    }

    // The targets of visited states are visited or wait on the stack; of those
    // of p (if not -1) the first k.
    ghost predicate Followed(stack: seq<int>, p: int, k: nat)
      reads this, markTable
    {
      && markTable.Length == n == |targets|
      && (forall x, q :: Visited(x, mainloop) && x != p && q in targets[x] ==> Visited(q, mainloop) || q in stack)
      && (p != -1 ==> Visited(p, mainloop) && k <= |targets[p]|
                      && forall i :: 0 <= i < k ==> Visited(targets[p][i], mainloop) || targets[p][i] in stack)
    }

    ghost predicate Searching(seeds: set<int>, size: nat, stack: seq<int>, p: int, k: nat)
      reads this, eTable, markTable, mark, tempMove
    {
      Valid() && Sound(seeds, size, stack, -1) && Marked(stack) && Followed(stack, p, k)
    }

    method PushTargets(p: int, stack0: seq<int>, ghost seeds: set<int>, ghost size: nat) returns (stack: seq<int>)
      requires 0 <= p < n && Searching(seeds, size, stack0, p, 0)
      modifies mark
      ensures Searching(seeds, size, stack, -1, 0) && forall x :: x in stack0 ==> x in stack
    {
      hide Sound, Marked, Followed, Memoized, Closed;
      stack := stack0;
      for i := 0 to |targets[p]|
        invariant Searching(seeds, size, stack, p, i) && forall x :: x in stack0 ==> x in stack
      {
        stack := PushTarget(p, i, stack, seeds, size);
      }
      AllFollowed(seeds, size, stack, p);
    }

    method PushTarget(p: int, i: nat, stack0: seq<int>, ghost seeds: set<int>, ghost size: nat)
      returns (stack: seq<int>)
      requires 0 <= p < n && Searching(seeds, size, stack0, p, i) && i < |targets[p]|
      modifies mark
      ensures Searching(seeds, size, stack, p, i + 1) && forall x :: x in stack0 ==> x in stack
    {
      hide EClose, Memoized, Closed, NoDup;
      TargetsBelow(m, targets, p);
      stack := stack0;
      var q := targets[p][i];
      assert q in targets[p];
      if mark[q] != mainloop {
        assert p in tempMove[..size];
        TargetInClosure(m, targets, seeds, p, q);
        mark[q] := mainloop;
        stack := stack0 + [q];
        TopOfStack(stack0, q, n);
      }
    }

    lemma AllFollowed(seeds: set<int>, size: nat, stack: seq<int>, p: int)
      requires 0 <= p < n == |targets| && Searching(seeds, size, stack, p, |targets[p]|)
      ensures Searching(seeds, size, stack, -1, 0)
    {
      hide EClose, Memoized, Closed, NoDup, Sound, Marked;
      assert forall q :: q in targets[p] ==> exists i :: 0 <= i < |targets[p]| && targets[p][i] == q;
    }

    ghost function Unvisited(): set<int>
      reads this, markTable
    {
      set x | x in Below(n) && !Visited(x, mainloop)
    }

    // A state taken off the stack.
    method Enter(p: int, size0: nat, stack: seq<int>, ghost stack0: seq<int>, ghost seeds: set<int>) returns (size: nat)
      requires Searching(seeds, size0, stack0, -1, 0) && stack0 == stack + [p] && !Visited(p, mainloop)
      modifies eTable, markTable, mark, tempMove
      ensures Searching(seeds, size, stack, p, 0) && size0 <= size <= n && tempMove[..size0] == old(tempMove[..size0])
      ensures 0 <= p < n && forall x :: Visited(x, mainloop) <==> old(Visited(x, mainloop)) || x == p
    {
      hide EClose, Memoized, Closed, Sound, Listed;
      Visit(p, size0, stack, stack0, seeds);
      size := List(p, size0, stack, seeds);
    }

    method Visit(p: int, ghost size: nat, ghost stack: seq<int>, ghost stack0: seq<int>, ghost seeds: set<int>)
      requires Searching(seeds, size, stack0, -1, 0) && stack0 == stack + [p] && !Visited(p, mainloop)
      modifies markTable, mark
      ensures Valid() && Sound(seeds, size, stack, p) && Marked(stack) && Followed(stack, p, 0)
      ensures 0 <= p < n && p in EClose(m, seeds)
      ensures forall x :: Visited(x, mainloop) <==> old(Visited(x, mainloop)) || x == p
    {
      hide EClose, Memoized, Closed, NoDup;
      TopOfStack(stack, p, n);
      mark[p] := mainloop;
      markTable[p] := mainloop;
    }

    method List(p: int, size0: nat, ghost stack: seq<int>, ghost seeds: set<int>) returns (size: nat)
      requires Valid() && Sound(seeds, size0, stack, p) && Visited(p, mainloop) && p in EClose(m, seeds)
      modifies eTable, tempMove
      ensures Sound(seeds, size, stack, -1) && size0 <= size <= n && tempMove[..size0] == old(tempMove[..size0])
    {
      hide EClose, Memoized, Closed;
      size := size0;
      if eTable[p] != mainloop {
        ghost var list := tempMove[..size];
        NoDupBound(list + [p], n);
        tempMove[size] := p;
        eTable[p] := mainloop;
        size := size + 1;
        assert tempMove[..size] == list + [p];
      }
    }

    // Everything reachable from the states on the stack.
    method Search(stack0: seq<int>, size0: nat, ghost seeds: set<int>) returns (size: nat)
      requires Searching(seeds, size0, stack0, -1, 0)
      modifies eTable, markTable, mark, tempMove
      ensures Searching(seeds, size, [], -1, 0) && size0 <= size <= n && tempMove[..size0] == old(tempMove[..size0])
      ensures forall x :: old(Visited(x, mainloop)) || x in stack0 ==> Visited(x, mainloop)
    {
      hide Sound, Marked, Followed, Memoized, Closed;
      StackBelow(seeds, size0, stack0);
      size := size0;
      var stack := stack0;
      while stack != []
        invariant Searching(seeds, size, stack, -1, 0) && size0 <= size <= n
                  && tempMove[..size0] == old(tempMove[..size0])
        invariant forall x :: old(Visited(x, mainloop)) || x in stack0 ==> Visited(x, mainloop) || x in stack
        decreases Unvisited(), |stack|
      {
        var p := stack[|stack| - 1];
        ghost var before, unvisited := stack, Unvisited();
        stack := stack[..|stack| - 1];
        assert before == stack + [p];
        StackBelow(seeds, size, before);
        TopOfStack(stack, p, n);
        if markTable[p] != mainloop {
          ghost var list, k := tempMove[..size], size;
          size := Enter(p, size, stack, before, seeds);
          assert tempMove[..size0] == tempMove[..k][..size0] == list[..size0];
          assert p in unvisited && p !in Unvisited() && Unvisited() <= unvisited;
          if |targets[p]| > 0 {
            stack := PushTargets(p, stack, seeds, size);
          } else {
            NothingToFollow(seeds, size, stack, p);
          }
        } else {
          AlreadyVisited(seeds, size, before, stack, p);
        }
      }
    }

    // e_closure on the first states entries of temp_move.
    method EClosure(states: nat) returns (size: nat)
      requires Valid() && Listed(states, mainloop - 1) && Unmarked(mainloop - 1)
      modifies this`mainloop, eTable, markTable, mark, tempMove
      ensures Valid() && mainloop == old(mainloop) && Listed(size, mainloop - 1) && Unmarked(mainloop)
      ensures Elements(tempMove[..size]) == EClose(m, old(Elements(tempMove[..states])))
    {
      hide Sound, Marked, Followed, Memoized, Closed, EClose;
      mainloop := mainloop - 1;
      size := states;
      ghost var list := tempMove[..states];
      ghost var seeds := Elements(list);
      StartSearch(seeds, states);
      for i := 0 to states
        invariant Searching(seeds, size, [], -1, 0) && states <= size <= n && tempMove[..states] == list
        invariant mainloop == old(mainloop) - 1
        invariant forall k :: 0 <= k < i ==> targets[list[k]] == [] || Visited(list[k], mainloop)
      {
        var s := tempMove[i];
        assert s == tempMove[..states][i] == list[i];
        if |targets[s]| > 0 {
          SeedInClosure(m, seeds, s);
          PushSeed(seeds, size, s);
          size := Search([s], size, seeds);
          assert s in [s];
        }
      }
      EndSearch(seeds, size, list);
      mainloop := mainloop + 1;
    }

    lemma StartSearch(seeds: set<int>, size: nat)
      requires Valid() && Listed(size, mainloop) && Unmarked(mainloop) && seeds == Elements(tempMove[..size])
      ensures Searching(seeds, size, [], -1, 0) && size <= n
      ensures forall k :: 0 <= k < size ==> 0 <= tempMove[..size][k] < n
    {
      forall x | x in tempMove[..size] ensures x in EClose(m, seeds) {
        var i :| 0 <= i < size && tempMove[..size][i] == x;
        SeedInClosure(m, seeds, x);
      }
    }

    lemma PushSeed(seeds: set<int>, size: nat, s: int)
      requires Searching(seeds, size, [], -1, 0) && s in EClose(m, seeds)
      ensures Searching(seeds, size, [s], -1, 0)
    {
    }

    lemma EndSearch(seeds: set<int>, size: nat, list: seq<int>)
      requires Searching(seeds, size, [], -1, 0) && seeds == Elements(list)
      requires |list| <= size <= n && tempMove[..|list|] == list
      requires forall k :: 0 <= k < |list| ==> 0 <= list[k] < n
                                               && (targets[list[k]] == [] || Visited(list[k], mainloop))
      ensures Elements(tempMove[..size]) == EClose(m, seeds) && Listed(size, mainloop) && Unmarked(mainloop + 1)
    {
      hide EClose, Memoized, Closed;
      var a := Elements(tempMove[..size]);
      forall x | x in seeds ensures x in a {
        var k :| 0 <= k < |list| && list[k] == x;
        assert tempMove[..size][k] == tempMove[..|list|][k];
      }
      forall p | p in a && 0 <= p < |targets| ensures targets[p] == [] || Visited(p, mainloop) {
        if p in seeds {
          var k :| 0 <= k < |list| && list[k] == p;
        }
      }
      ClosureReached(m, targets, seeds, a);
    }

    lemma StackBelow(seeds: set<int>, size: nat, stack: seq<int>)
      requires Sound(seeds, size, stack, -1)
      ensures AllBelow(stack, n) && size <= n
    {
    }

    lemma NothingToFollow(seeds: set<int>, size: nat, stack: seq<int>, p: int)
      requires Searching(seeds, size, stack, p, 0) && 0 <= p < n && targets[p] == []
      ensures Searching(seeds, size, stack, -1, 0)
    {
      hide EClose, Memoized, Closed;
    }

    lemma AlreadyVisited(seeds: set<int>, size: nat, stack0: seq<int>, stack: seq<int>, p: int)
      requires Searching(seeds, size, stack0, -1, 0) && stack0 == stack + [p] && Visited(p, mainloop)
      ensures Searching(seeds, size, stack, -1, 0)
    {
      hide EClose, Memoized, Closed;
      TopOfStack(stack, p, n);
    }
  }

  lemma TopOfStack(stack: seq<int>, p: int, n: int)
    ensures forall x :: x in stack + [p] <==> x in stack || x == p
    ensures AllBelow(stack + [p], n) <==> AllBelow(stack, n) && 0 <= p < n
  {
    var s := stack + [p];
    assert s[|stack|] == p;
    forall x | x in stack ensures x in s {
      var i :| 0 <= i < |stack| && stack[i] == x;
      assert s[i] == x;
    }
    if AllBelow(s, n) {
      forall i | 0 <= i < |stack| ensures 0 <= stack[i] < n {
        assert s[i] == stack[i];
      }
    }
  }
}
