// What the product constructions share (constructions.c): pairs of states are
// numbered as they are found, and wait on a stack until their arcs are written.

module Explore {
  import opened Nets
  import opened Counting
  import opened TripletHash
  import opened Builder
  import opened Order
  import Pointers

  datatype Move = Move(letter: Letter, to: Triple)

  // The net to be built, on triples instead of numbers.
  datatype Space = Space(init: Triple, next: Triple -> set<Move>, final: Triple -> bool)

  // The moves of a walk from x to y.
  ghost predicate Walk(space: Space, x: Triple, walk: seq<Move>, y: Triple)
    decreases walk
  {
    if walk == [] then x == y
    else walk[0] in space.next(x) && Walk(space, walk[0].to, walk[1..], y)
  }

  ghost function Label(walk: seq<Move>): seq<Letter> {
    if walk == [] then []
    else (if walk[0].letter == EPS then [] else [walk[0].letter]) + Label(walk[1..])
  }

  ghost predicate WalksTo(space: Space, x: Triple, w: seq<Letter>, y: Triple) {
    exists walk :: Walk(space, x, walk, y) && Label(walk) == w
  }

  ghost predicate AcceptsIn(space: Space, w: seq<Letter>) {
    exists y :: WalksTo(space, space.init, w, y) && space.final(y)
  }

  // ---- The numbered net ----

  ghost predicate HasMove(arcs: set<Arc>, keys: seq<Triple>, i: int, mv: Move)
    requires 0 <= i < |keys|
  {
    // fsm_state_add_arc leaves out 0:0 loops
    (mv.letter == EPS && mv.to == keys[i]) || exists j :: 0 <= j < |keys| && keys[j] == mv.to
                                                          && Arc(i, mv.letter, j) in arcs
  }

  ghost predicate ArcIs(keys: seq<Triple>, a: Arc, moves: set<Move>) {
    0 <= a.src < |keys| && 0 <= a.dst < |keys| && Move(a.letter, keys[a.dst]) in moves
  }

  // The arcs of the states in done are written; of cur, those for sofar.
  ghost predicate Explored(space: Space, keys: seq<Triple>, arcs: set<Arc>, done: set<int>, cur: int,
                           sofar: set<Move>) {
    && |keys| > 0 && keys[0] == space.init && NoDup(keys) && (cur == -1 ==> sofar == {}) && cur !in done
    && (forall a :: a in arcs ==> 0 <= a.src < |keys|
                                  && ArcIs(keys, a, if a.src == cur then sofar else space.next(keys[a.src])))
    && (forall a :: a in arcs ==> a.src in done || a.src == cur)
    && (forall i :: i in done ==> 0 <= i < |keys| && forall mv :: mv in space.next(keys[i]) ==>
                                                                    HasMove(arcs, keys, i, mv))
    && (cur != -1 ==> 0 <= cur < |keys| && sofar <= space.next(keys[cur])
                      && forall mv :: mv in sofar ==> HasMove(arcs, keys, cur, mv))
    && (forall i :: 0 <= i < |keys| ==> Reaches(arcs, 0, i))
  }

  // Everything not done (nor current) waits on the stack, once.
  ghost predicate Waiting(stack: seq<Triple>, keys: seq<Triple>, done: set<int>) {
    && NoDup(stack)
    && (forall x :: x in stack ==> x in keys)
    && (forall i :: 0 <= i < |keys| ==> (i in done <==> keys[i] !in stack))
  }

  ghost predicate IsExplored(space: Space, k: Net, keys: seq<Triple>) {
    && Closed(k) && k.states == |keys| > 0 && keys[0] == space.init && NoDup(keys) && k.starts == {0}
    && (forall a :: a in k.arcs ==> 0 <= a.src < |keys| && ArcIs(keys, a, space.next(keys[a.src])))
    && (forall i :: 0 <= i < |keys| ==> forall mv :: mv in space.next(keys[i]) ==> HasMove(k.arcs, keys, i, mv))
    && (forall i :: i in k.finals <==> 0 <= i < |keys| && space.final(keys[i]))
    && (forall i :: 0 <= i < |keys| ==> Reachable(k, i))
  }

  lemma {:induction false} PathIsWalk(space: Space, k: Net, keys: seq<Triple>, p: int, path: seq<Arc>, q: int)
    returns (walk: seq<Move>)
    requires IsExplored(space, k, keys) && Path(k.arcs, p, path, q) && 0 <= p < |keys|
    ensures 0 <= q < |keys| && Walk(space, keys[p], walk, keys[q]) && Label(walk) == Word(path)
    decreases path
  {
    if path == [] {
      walk := [];
    } else {
      var a := path[0];
      var rest := PathIsWalk(space, k, keys, a.dst, path[1..], q);
      walk := [Move(a.letter, keys[a.dst])] + rest;
      assert walk[1..] == rest;
    }
  }

  lemma {:induction false} WalkIsPath(space: Space, k: Net, keys: seq<Triple>, p: int, walk: seq<Move>, y: Triple)
    returns (path: seq<Arc>, q: int)
    requires IsExplored(space, k, keys) && 0 <= p < |keys| && Walk(space, keys[p], walk, y)
    ensures 0 <= q < |keys| && keys[q] == y && Path(k.arcs, p, path, q) && Label(walk) == Word(path)
    decreases walk
  {
    if walk == [] {
      path, q := [], p;
    } else {
      var mv := walk[0];
      assert HasMove(k.arcs, keys, p, mv);
      if mv.letter == EPS && mv.to == keys[p] {
        path, q := WalkIsPath(space, k, keys, p, walk[1..], y);
      } else {
        var j :| 0 <= j < |keys| && keys[j] == mv.to && Arc(p, mv.letter, j) in k.arcs;
        var rest;
        rest, q := WalkIsPath(space, k, keys, j, walk[1..], y);
        path := [Arc(p, mv.letter, j)] + rest;
        assert path[1..] == rest;
      }
    }
  }

  // The numbered net accepts what the space accepts.
  lemma ExploredLanguage(space: Space, k: Net, keys: seq<Triple>, w: seq<Letter>)
    requires IsExplored(space, k, keys)
    ensures Accepts(k, w) <==> AcceptsIn(space, w)
  {
    if Accepts(k, w) {
      var s, f :| s in k.starts && f in k.finals && Spells(k.arcs, s, w, f);
      var path :| Path(k.arcs, s, path, f) && Word(path) == w;
      var walk := PathIsWalk(space, k, keys, 0, path, f);
      assert WalksTo(space, space.init, w, keys[f]);
    }
    if AcceptsIn(space, w) {
      var y :| WalksTo(space, space.init, w, y) && space.final(y);
      var walk :| Walk(space, space.init, walk, y) && Label(walk) == w;
      var path, f := WalkIsPath(space, k, keys, 0, walk, y);
      assert 0 in k.starts && Spells(k.arcs, 0, w, f);
    }
  }

  // ---- Steps of the exploration ----

  lemma FirstKey(space: Space)
    ensures Explored(space, [space.init], {}, {}, -1, {}) && Waiting([space.init], [space.init], {})
  {
    assert Path({}, 0, [], 0);
  }

  lemma OpenKey(space: Space, keys: seq<Triple>, arcs: set<Arc>, done: set<int>, stack: seq<Triple>, cur: nat)
    requires Explored(space, keys, arcs, done, -1, {}) && Waiting(stack, keys, done)
    requires stack != [] && cur < |keys| && keys[cur] == stack[|stack| - 1]
    ensures Explored(space, keys, arcs, done, cur, {}) && Waiting(stack[..|stack| - 1], keys, done + {cur})
  {
    var rest := stack[..|stack| - 1];
    assert stack == rest + [keys[cur]] && keys[cur] !in rest;
    assert keys[cur] in stack;
  }

  // A new key: pushed and inserted.
  lemma NewKey(space: Space, keys: seq<Triple>, arcs: set<Arc>, done: set<int>, cur: int, sofar: set<Move>,
               stack: seq<Triple>, x: Triple)
    requires Waiting(stack, keys, done + {cur}) && x !in keys && NoDup(keys)
             && (forall i :: i in done + {cur} ==> 0 <= i < |keys|)
    ensures Waiting(stack + [x], keys + [x], done + {cur}) && NoDup(keys + [x])
  {
    assert x !in stack;
    forall y | y in keys ensures y in keys + [x] {
    }
  }

  lemma HasMoveGrows(arcs: set<Arc>, keys: seq<Triple>, i: int, mv: Move, arcs': set<Arc>, keys': seq<Triple>)
    requires 0 <= i < |keys| && HasMove(arcs, keys, i, mv) && arcs <= arcs' && keys <= keys'
    ensures HasMove(arcs', keys', i, mv)
  {
    if !(mv.letter == EPS && mv.to == keys[i]) {
      var j :| 0 <= j < |keys| && keys[j] == mv.to && Arc(i, mv.letter, j) in arcs;
      assert keys'[j] == mv.to;
    }
  }

  lemma NewMove(keys: seq<Triple>, cur: nat, mv: Move, j: nat, arcs: set<Arc>)
    requires cur < |keys| && j < |keys| && keys[j] == mv.to
             && ((mv.letter == EPS && j == cur) || Arc(cur, mv.letter, j) in arcs)
    ensures HasMove(arcs, keys, cur, mv)
  {
  }

  // One more arc of the current state.
  lemma AddMove(space: Space, keys: seq<Triple>, arcs: set<Arc>, done: set<int>, cur: nat, sofar: set<Move>,
                keys': seq<Triple>, mv: Move, j: nat, arcs': set<Arc>)
    requires Explored(space, keys, arcs, done, cur, sofar) && mv in space.next(keys[cur]) && NoDup(keys')
    requires keys' == keys || keys' == keys + [mv.to]
    requires j < |keys'| && keys'[j] == mv.to
    requires arcs' == arcs + (if mv.letter == EPS && j == cur then {} else {Arc(cur, mv.letter, j)})
    ensures Explored(space, keys', arcs', done, cur, sofar + {mv})
  {
    hide HasMove, Reaches;
    forall i, m | i in done && m in space.next(keys[i]) ensures HasMove(arcs', keys', i, m) {
      HasMoveGrows(arcs, keys, i, m, arcs', keys');
    }
    forall m | m in sofar + {mv} ensures HasMove(arcs', keys', cur, m) {
      if m in sofar {
        HasMoveGrows(arcs, keys, cur, m, arcs', keys');
      } else {
        NewMove(keys', cur, mv, j, arcs');
      }
    }
    forall i | 0 <= i < |keys'| ensures Reaches(arcs', 0, i) {
      if i < |keys| {
        ReachesGrows(arcs, arcs', 0, i);
      } else {
        assert keys'[i] == mv.to && i == j;
        ReachesGrows(arcs, arcs', 0, cur);
        ReachesSnoc(arcs', 0, Arc(cur, mv.letter, j));
      }
    }
  }

  lemma CloseKey(space: Space, keys: seq<Triple>, arcs: set<Arc>, done: set<int>, cur: nat)
    requires cur < |keys| && Explored(space, keys, arcs, done, cur, space.next(keys[cur]))
    ensures Explored(space, keys, arcs, done + {cur}, -1, {})
  {
  }

  class Explorer {
    const table: TripleTable
    const writer: StateWriter
    var stack: seq<Triple>
    ghost const space: Space
    ghost const universe: set<Triple>
    ghost var done: set<int>
    // The numbers of the states on the stack: those found before the state
    // being written, and those found for it; the lines when it began.
    ghost var rest: seq<int>
    ghost var pushed: seq<int>
    ghost var begun: seq<Line>

    ghost predicate Ordered(cur: int)
      reads this, table, writer
    {
      && Numbers(stack, table.keys, rest + pushed)
      && (if cur == -1 then pushed == [] && Found(writer.lines, rest, |table.keys|)
          else Finding(begun, writer.lines, cur, rest, pushed, |table.keys|))
    }

    // cur is the state being written (-1: none), sofar the moves written for it.
    ghost predicate Valid(cur: int, sofar: set<Move>)
      reads this, table, table.triplets, writer
    {
      && table.Valid() && writer.Valid(cur) && (cur != -1 ==> writer.currentState == cur)
      && Explored(space, table.keys, ArcsOf(writer.lines), done, cur, sofar)
      && Waiting(stack, table.keys, if cur == -1 then done else done + {cur})
      && FlagsMatch(writer.flags, space, table.keys, if cur == -1 then done else done + {cur})
      && Bounded(space, universe, table.keys) && Ordered(cur)
    }

    constructor (ghost space: Space, ghost universe: set<Triple>, init: Triple)
      requires space.init == init && init in universe && (forall x, mv :: x in universe && mv in space.next(x) ==>
                                                                            mv.to in universe)
      ensures Valid(-1, {}) && this.space == space && this.universe == universe && done == {} && stack == [init]
              && table.keys == [init]
      ensures fresh(table) && fresh(table.triplets) && fresh(writer)
    {
      this.space := space;
      this.universe := universe;
      table := new TripleTable();
      writer := new StateWriter();
      stack := [init];
      done, rest, pushed, begun := {}, [0], [], [];
      new;
      var key := table.Insert(init);
      FirstKey(space);
      NothingFound();
      assert rest + pushed == [0];
      NoLines(writer.lines);
      assert table.keys == [init];
    }

    // A triple is popped and its state begun.
    method Open(final: bool, start: bool) returns (x: Triple, ghost cur: nat)
      requires Valid(-1, {}) && stack != []
      requires final == space.final(stack[|stack| - 1]) && start == (stack[|stack| - 1] == space.init)
      modifies this, writer
      ensures Valid(cur, {}) && x == old(stack[|stack| - 1]) && cur < |table.keys| && table.keys[cur] == x
      ensures done == old(done)
    {
      hide Explored, Waiting, FlagsMatch, Bounded, StateWriter.Valid, TripleTable.Valid, Found, Finding, Numbers;
      x := stack[|stack| - 1];
      StackFacts();
      var key := table.Find(x);
      cur := key;
      OpenKey(space, table.keys, ArcsOf(writer.lines), done, stack, cur);
      OpenFlags(writer.flags, space, table.keys, done, cur);
      TopNumber(stack, table.keys, rest, cur);
      OpenRow(writer.lines, rest[..|rest| - 1], cur, |table.keys|);
      stack, rest, begun := stack[..|stack| - 1], rest[..|rest| - 1], writer.lines;
      writer.SetCurrentState(key, final, start);
    }

    lemma StackFacts()
      requires Valid(-1, {}) && stack != []
      ensures stack[|stack| - 1] in table.keys && NoDup(table.keys)
      ensures forall i :: 0 <= i < |table.keys| && table.keys[i] == stack[|stack| - 1] ==>
                            i !in done && i !in writer.flags
    {
      assert stack[|stack| - 1] in stack;
    }

    // An arc to x, which gets a number and waits if it is new.
    method Add(inp: int, outp: int, x: Triple, ghost cur: nat, ghost sofar: set<Move>)
      requires Valid(cur, sofar) && cur < |table.keys| && inp >= 0 && outp >= 0
      requires Move(Letter(inp, outp), x) in space.next(table.keys[cur])
      modifies this`stack, this`pushed, table, table.triplets, writer
      ensures Valid(cur, sofar + {Move(Letter(inp, outp), x)}) && old(table.keys) <= table.keys
      ensures table.triplets == old(table.triplets) || fresh(table.triplets)
    {
      hide Explored, Waiting, FlagsMatch, Bounded, StateWriter.Valid, TripleTable.Valid, Found, Finding, Numbers;
      ghost var t, news := writer.lines, pushed;
      ghost var keys, arcs, mv := table.keys, ArcsOf(writer.lines), Move(Letter(inp, outp), x);
      CurrentFacts(cur, sofar);
      var target := table.Find(x);
      if target == -1 {
        KeyAdded(space, universe, keys, arcs, done, cur, sofar, stack, writer.flags, x);
        NextNumber(stack, keys, rest, pushed, x);
        stack, pushed := stack + [x], pushed + [|keys|];
        target := table.Insert(x);
      }
      writer.AddArc(inp, outp, target);
      if |table.keys| > |keys| {
        HasArcLine(writer.lines, Arc(cur, Letter(inp, outp), target));
      }
      MoreLines(begun, t, cur, rest, news, |keys|, writer.lines);
      AddMove(space, keys, arcs, done, cur, sofar, table.keys, mv, target, ArcsOf(writer.lines));
    }

    lemma CurrentFacts(cur: int, sofar: set<Move>)
      requires Valid(cur, sofar)
      ensures NoDup(table.keys) && (cur != -1 ==> 0 <= cur < |table.keys| && table.keys[cur] in universe
                                                  && sofar <= space.next(table.keys[cur]))
      ensures |table.keys| > 0 && table.keys[0] == space.init
    {
    }

    // The state is complete.
    method EndState(ghost cur: nat)
      requires cur < |table.keys| && Valid(cur, space.next(table.keys[cur]))
      modifies this`done, this`rest, this`pushed, writer
      ensures Valid(-1, {}) && done == old(done) + {cur} && table.keys == old(table.keys)
    {
      hide Explored, Waiting, FlagsMatch, Bounded, StateWriter.Valid, TripleTable.Valid, Found, Finding, Numbers;
      CloseKey(space, table.keys, ArcsOf(writer.lines), done, cur);
      ghost var t := writer.lines;
      writer.EndState();
      MoreLines(begun, t, cur, rest, pushed, |table.keys|, writer.lines);
      CloseRow(begun, writer.lines, cur, rest, pushed, |table.keys|);
      done, rest, pushed := done + {cur}, rest + pushed, [];
      assert rest + pushed == rest;
    }

    // A bound for the loop over the stack.
    ghost function Left(): int
      reads this
    {
      |universe| - |done|
    }

    lemma SomeLeft()
      requires Valid(-1, {}) && stack != []
      ensures Left() > 0
      ensures forall i :: 0 <= i < |table.keys| && table.keys[i] == stack[|stack| - 1] ==> i !in done
    {
      hide FlagsMatch, StateWriter.Valid, TripleTable.Valid, HasMove, ArcIs, Reaches, Found, Finding, Numbers, InOrder;
      var x := stack[|stack| - 1];
      assert x in stack;
      var cur :| 0 <= cur < |table.keys| && table.keys[cur] == x;
      NoDupSize(table.keys);
      SubsetSize(Elements(table.keys), universe);
      BelowSize(|table.keys|);
      SubsetSize(done + {cur}, Below(|table.keys|));
    }

    lemma TopKnown()
      requires Valid(-1, {}) && stack != []
      ensures stack[|stack| - 1] in universe && stack[|stack| - 1] in table.keys
    {
      assert stack[|stack| - 1] in stack;
    }

    // fsm_state_close, when nothing waits.
    method Close() returns (out: seq<Line>, states: nat)
      requires Valid(-1, {}) && stack == []
      modifies writer
      ensures states == |table.keys| && Pointers.IsNet(out, states) && InOrder(out)
              && IsExplored(space, Meaning(out, states), table.keys)
    {
      hide Explored, Waiting, FlagsMatch, Bounded, StateWriter.Valid, TripleTable.Valid, IsExplored, Finding;
      assert rest == [];
      AllFound(writer.lines, |table.keys|);
      hide Found, InOrder;
      ghost var n := |table.keys|;
      NothingWaits(space, table.keys, ArcsOf(writer.lines), done, writer.flags);
      var table0, deterministic := writer.Close(n);
      out, states := table0[..|table0| - 1], writer.statecount;
      TableIsClosed(out, states);
      AllExplored(space, table.keys, Meaning(out, states), done, writer.flags);
      assert out == writer.lines;
      ExploredSome(space, Meaning(out, states), table.keys);
    }
  }

  lemma ExploredSome(space: Space, k: Net, keys: seq<Triple>)
    requires IsExplored(space, k, keys)
    ensures k.states > 0
  {
  }

  // nums are the numbers of the triples on the stack.
  ghost predicate Numbers(stack: seq<Triple>, keys: seq<Triple>, nums: seq<int>) {
    |nums| == |stack| && forall i :: 0 <= i < |stack| ==> 0 <= nums[i] < |keys| && keys[nums[i]] == stack[i]
  }

  lemma TopNumber(stack: seq<Triple>, keys: seq<Triple>, rest: seq<int>, cur: nat)
    requires Numbers(stack, keys, rest + []) && stack != [] && NoDup(keys) && cur < |keys|
             && keys[cur] == stack[|stack| - 1]
    ensures rest != [] && rest == rest[..|rest| - 1] + [cur]
            && Numbers(stack[..|stack| - 1], keys, rest[..|rest| - 1] + [])
  {
    assert rest + [] == rest;
    assert keys[rest[|rest| - 1]] == keys[cur];
    assert rest[..|rest| - 1] + [] == rest[..|rest| - 1];
  }

  lemma NextNumber(stack: seq<Triple>, keys: seq<Triple>, rest: seq<int>, pushed: seq<int>, x: Triple)
    requires Numbers(stack, keys, rest + pushed)
    ensures Numbers(stack + [x], keys + [x], rest + (pushed + [|keys|]))
  {
    assert rest + (pushed + [|keys|]) == (rest + pushed) + [|keys|];
  }

  lemma NothingWaits(space: Space, keys: seq<Triple>, arcs: set<Arc>, done: set<int>, flags: map<int, Flags>)
    requires Explored(space, keys, arcs, done, -1, {}) && Waiting([], keys, done)
             && FlagsMatch(flags, space, keys, done)
    ensures forall i :: i in flags <==> 0 <= i < |keys|
    ensures forall i :: i in done <==> 0 <= i < |keys|
    ensures forall a :: a in arcs ==> 0 <= a.dst < |keys|
  {
    forall i | 0 <= i < |keys| ensures i in done {
      assert keys[i] !in [];
    }
  }

  lemma AllExplored(space: Space, keys: seq<Triple>, k: Net, done: set<int>, flags: map<int, Flags>)
    requires Explored(space, keys, k.arcs, done, -1, {}) && FlagsMatch(flags, space, keys, done)
             && (forall i :: i in done <==> 0 <= i < |keys|)
    requires Closed(k) && k.states == |keys| && k.starts == StartSet(flags)
             && forall q :: q in k.finals <==> q in flags && flags[q].final
    ensures IsExplored(space, k, keys)
  {
    hide Reaches, HasMove, ArcIs, Closed;
    forall q ensures q in k.starts <==> q == 0 {
      if q in k.starts {
        assert keys[q] == keys[0];
      }
    }
    forall i | 0 <= i < |keys| ensures Reachable(k, i) {
      assert 0 in k.starts && Reaches(k.arcs, 0, i);
    }
  }

  lemma KeyAdded(space: Space, universe: set<Triple>, keys: seq<Triple>, arcs: set<Arc>, done: set<int>, cur: nat,
                 sofar: set<Move>,
                 stack: seq<Triple>, flags: map<int, Flags>, x: Triple)
    requires Explored(space, keys, arcs, done, cur, sofar) && Waiting(stack, keys, done + {cur}) && x !in keys
             && cur < |keys|
    requires FlagsMatch(flags, space, keys, done + {cur}) && Bounded(space, universe, keys)
    requires exists mv :: mv in space.next(keys[cur]) && mv.to == x
    ensures Waiting(stack + [x], keys + [x], done + {cur}) && NoDup(keys + [x])
    ensures FlagsMatch(flags, space, keys + [x], done + {cur}) && Bounded(space, universe, keys + [x])
  {
    NewKey(space, keys, arcs, done, cur, sofar, stack, x);
    assert keys[cur] in universe;
  }

  ghost predicate FlagsMatch(flags: map<int, Flags>, space: Space, keys: seq<Triple>, done: set<int>) {
    && (forall i :: i in flags <==> i in done)
    && (forall i :: i in done ==> 0 <= i < |keys| && flags[i] == Flags(space.final(keys[i]), keys[i] == space.init))
  }

  lemma OpenFlags(flags: map<int, Flags>, space: Space, keys: seq<Triple>, done: set<int>, cur: nat)
    requires FlagsMatch(flags, space, keys, done) && cur < |keys|
    ensures FlagsMatch(flags[cur := Flags(space.final(keys[cur]), keys[cur] == space.init)], space, keys, done + {cur})
  {
  }

  // All triples come from a finite set.
  ghost predicate Bounded(space: Space, universe: set<Triple>, keys: seq<Triple>) {
    (forall x, mv :: x in universe && mv in space.next(x) ==> mv.to in universe)
        && forall x :: x in keys ==> x in universe
  }
}
