// apply_index (apply.c): the arcs of an indexed state in linked lists, one for
// every symbol, all of which go on with the list of the arcs that need no input.

module ArcIndex {
  import opened Nets
  import opened Counting
  import opened Lookup

  datatype Ptr = Nil | Head(slot: Slot) | Cell(n: nat)

  datatype Node = Node(fsmptr: int, next: Ptr)

  datatype IndexTable = IndexTable(heads: map<Slot, Node>, cells: seq<Node>) {
    predicate Has(p: Ptr) {
      !p.Nil? && (p.Head? ==> p.slot in heads) && (p.Cell? ==> p.n < |cells|)
    }

    function At(p: Ptr): Node
      requires Has(p)
    {
      if p.Head? then heads[p.slot] else cells[p.n]
    }

    // The pointer is at no line.
    predicate AtEnd(p: Ptr) {
      p.Nil? || (Has(p) && At(p).fsmptr == -1)
    }
  }

  // From p on, the search comes by these lines.
  ghost predicate Walk(x: IndexTable, p: Ptr, lines: seq<nat>)
    decreases lines
  {
    if lines == [] then x.AtEnd(p)
    else x.Has(p) && x.At(p).fsmptr == lines[0] && Walk(x, x.At(p).next, lines[1..])
  }

  lemma WalkOn(x: IndexTable, p: Ptr, lines: seq<nat>)
    requires Walk(x, p, lines)
    ensures x.AtEnd(p) <==> lines == []
    ensures lines != [] ==> x.Has(p) && x.At(p).fsmptr == lines[0] && Walk(x, x.At(p).next, lines[1..])
  {
  }

  // Where apply_set_iptr enters the lists of a state for a symbol.
  function Entered(x: IndexTable, s: Slot): Ptr
    requires s in x.heads
  {
    if x.heads[s].fsmptr != -1 then Head(s)
    else if x.heads[s].next.Nil? || x.AtEnd(x.heads[s].next) then Nil
    else x.heads[s].next
  }

  // All lists but that of EPSILON end in the head of EPSILON.
  function Tail(s: Slot): Ptr {
    if s.sym == EPSILON then Nil else Head(Slot(s.state, EPSILON))
  }

  // From p on, the cells ids, and then the tail.
  ghost predicate Chain(p: Ptr, cells: seq<Node>, ids: seq<nat>, tail: Ptr)
    decreases ids
  {
    if ids == [] then p == tail
    else p == Cell(ids[0]) && ids[0] < |cells| && cells[ids[0]].fsmptr >= 0
         && Chain(cells[ids[0]].next, cells, ids[1..], tail)
  }

  ghost function Values(cells: seq<Node>, ids: seq<nat>): seq<nat>
    decreases ids
  {
    if ids == [] || ids[0] >= |cells| || cells[ids[0]].fsmptr < 0
        then [] else [cells[ids[0]].fsmptr] + Values(cells, ids[1..])
  }

  // A list with its head; an empty one has -1 there.
  ghost predicate Linked(head: Node, cells: seq<Node>, ids: seq<nat>, tail: Ptr) {
    Chain(head.next, cells, ids, tail) && head.fsmptr >= -1 && (head.fsmptr == -1 ==> ids == [])
  }

  ghost function Entries(head: Node, cells: seq<Node>, ids: seq<nat>): seq<nat> {
    if head.fsmptr < 0 then [] else [head.fsmptr] + Values(cells, ids)
  }

  // A cell of another list changes nothing.
  lemma {:induction false} ChainGrows(p: Ptr, cells: seq<Node>, ids: seq<nat>, tail: Ptr, more: Node)
    requires Chain(p, cells, ids, tail)
    ensures Chain(p, cells + [more], ids, tail) && Values(cells + [more], ids) == Values(cells, ids)
    decreases ids
  {
    if ids != [] {
      ChainGrows(cells[ids[0]].next, cells, ids[1..], tail, more);
    }
  }

  lemma LinkedGrows(head: Node, cells: seq<Node>, ids: seq<nat>, tail: Ptr, more: Node)
    requires Linked(head, cells, ids, tail)
    ensures Linked(head, cells + [more], ids, tail) && Entries(head, cells + [more], ids) == Entries(head, cells, ids)
  {
    ChainGrows(head.next, cells, ids, tail, more);
  }

  // A new cell right after the head.
  lemma LinkedInsert(head: Node, cells: seq<Node>, ids: seq<nat>, tail: Ptr, i: nat)
    requires Linked(head, cells, ids, tail) && head.fsmptr != -1
    ensures var head', cells', ids' := head.(next := Cell(|cells|)), cells + [Node(i, head.next)], [|cells|] + ids;
            Linked(head', cells', ids', tail) && Entries(head', cells', ids') == Inserted(Entries(head, cells, ids), i)
  {
    hide Inserted, NoDup;
    var cells', ids', values := cells + [Node(i, head.next)], [|cells|] + ids, Values(cells, ids);
    ChainGrows(head.next, cells, ids, tail, Node(i, head.next));
    assert ids'[1..] == ids && cells'[ids'[0]] == Node(i, head.next);
    assert Values(cells', ids') == [i] + values;
    SecondPlace(head.fsmptr, values, i);
    assert [head.fsmptr] + ([i] + values) == [head.fsmptr, i] + values;
  }

  lemma SecondPlace(first: nat, values: seq<nat>, i: nat)
    ensures Inserted([first] + values, i) == [first, i] + values
  {
    assert ([first] + values)[1..] == values;
  }

  ghost predicate TablesOK(heads: map<Slot, Node>, cells: seq<Node>, ids: map<Slot, seq<nat>>) {
    && heads.Keys == ids.Keys
    && (forall s :: s in heads ==> Linked(heads[s], cells, ids[s], Tail(s)))
    && (forall s :: s in heads ==> Slot(s.state, EPSILON) in heads)
  }

  lemma CellAdded(heads: map<Slot, Node>, cells: seq<Node>, ids: map<Slot, seq<nat>>, s: Slot, i: nat)
    requires TablesOK(heads, cells, ids) && s in heads && heads[s].fsmptr != -1
    ensures var heads' := heads[s := heads[s].(next := Cell(|cells|))];
            var cells', ids' := cells + [Node(i, heads[s].next)], ids[s := [|cells|] + ids[s]];
            && TablesOK(heads', cells', ids')
            && (forall r :: r in heads ==>
                  Entries(heads'[r], cells', ids'[r]) ==
                    if r == s then Inserted(Entries(heads[s], cells, ids[s]), i) else Entries(heads[r], cells, ids[r]))
  {
    hide Linked, Entries, Inserted;
    LinkedInsert(heads[s], cells, ids[s], Tail(s), i);
    var cell := Node(i, heads[s].next);
    forall r | r in heads
      ensures Linked(heads[r], cells + [cell], ids[r], Tail(r))
      ensures Entries(heads[r], cells + [cell], ids[r]) == Entries(heads[r], cells, ids[r]) {
      LinkedGrows(heads[r], cells, ids[r], Tail(r), cell);
    }
  }

  class Index {
    var heads: map<Slot, Node>
    var cells: seq<Node>
    ghost var ids: map<Slot, seq<nat>>

    ghost predicate Valid()
      reads this
    {
      TablesOK(heads, cells, ids)
    }

    // The lines filed under s, in the order of the list.
    ghost function Lines(s: Slot): seq<nat>
      requires Valid() && s in heads
      reads this
    {
      Entries(heads[s], cells, ids[s])
    }

    ghost function All(): (r: map<Slot, seq<nat>>)
      requires Valid()
      reads this
      ensures r.Keys == heads.Keys && forall s :: s in heads ==> r[s] == Lines(s)
    {
      map s | s in heads :: Lines(s)
    }

    // Exactly the lines below i are filed, each once.
    ghost predicate Complete(k: Task, i: nat)
      requires Valid() && i <= |k.t|
      reads this
    {
      forall s :: s in heads ==> FiledBelow(k, i, s, Lines(s))
    }

    // Empty lists for the symbols of the chosen states.
    constructor (size: nat, chosen: set<nat>)
      requires size > 0
      ensures Valid() && (forall s :: s in heads <==> s.state in chosen && s.sym < size)
      ensures forall s :: s in heads ==> Lines(s) == []
    {
      Bounds(size, chosen);
      heads := map s | s in Slots(size, chosen) :: Node(-1, Tail(s));
      ids := map s | s in Slots(size, chosen) :: [];
      cells := [];
    }

    // Line i is filed under s: in the head, or right after it.
    method File(i: nat, s: Slot)
      requires Valid() && s in heads
      modifies this
      ensures Valid() && heads.Keys == old(heads.Keys)
      ensures forall r :: r in heads ==> Lines(r) == if r == s then Inserted(old(Lines(s)), i) else old(Lines(r))
    {
      hide Linked, Entries;
      if heads[s].fsmptr == -1 {
        HeadFacts(s);
        FirstEntry(heads[s], cells, ids[s], Tail(s), i);
        heads := heads[s := heads[s].(fsmptr := i)];
      } else {
        AddCell(i, s);
      }
    }

    // A new cell right after the head.
    method AddCell(i: nat, s: Slot)
      requires Valid() && s in heads && heads[s].fsmptr != -1
      modifies this
      ensures Valid() && heads.Keys == old(heads.Keys)
      ensures forall r :: r in heads ==> Lines(r) == if r == s then Inserted(old(Lines(s)), i) else old(Lines(r))
    {
      hide TablesOK, Entries, Inserted;
      HeadFacts(s);
      CellAdded(heads, cells, ids, s, i);
      var cell := Node(i, heads[s].next);
      heads := heads[s := heads[s].(next := Cell(|cells|))];
      ids := ids[s := [|cells|] + ids[s]];
      cells := cells + [cell];
    }

    lemma HeadFacts(s: Slot)
      requires Valid() && s in heads
      ensures s in ids && Linked(heads[s], cells, ids[s], Tail(s))
              && (heads[s].fsmptr == -1 ==> ids[s] == [] && heads[s].next == Tail(s))
    {
    }

    function Table(): IndexTable
      reads this
    {
      IndexTable(heads, cells)
    }

    // The list of a symbol, and then that of EPSILON.
    lemma Walks(s: Slot)
      requires Valid() && s in heads
      ensures Walk(Table(), Entered(Table(), s), (if s.sym == EPSILON then [] else Lines(s))
                   + Lines(Slot(s.state, EPSILON)))
    {
      hide Linked, Chain, Entered, Walk, Entries;
      var x, eps := Table(), Slot(s.state, EPSILON);
      HeadFacts(s);
      HeadFacts(eps);
      EpsilonWalk(x, eps, ids[eps]);
      if s == eps {
        assert [] + Lines(eps) == Lines(eps);
      } else {
        OwnWalk(x, s, ids[s], eps, Lines(eps));
      }
    }
  }

  lemma EpsilonWalk(x: IndexTable, eps: Slot, ids: seq<nat>)
    requires eps in x.heads && Linked(x.heads[eps], x.cells, ids, Nil)
    ensures Walk(x, Head(eps), Entries(x.heads[eps], x.cells, ids))
    ensures Walk(x, Entered(x, eps), Entries(x.heads[eps], x.cells, ids))
  {
    var head := x.heads[eps];
    if head.fsmptr == -1 {
      assert Entries(head, x.cells, ids) == [];
    } else {
      ListWalk(x, eps, ids, Nil, []);
      assert Entries(head, x.cells, ids) + [] == Entries(head, x.cells, ids);
    }
  }

  lemma OwnWalk(x: IndexTable, s: Slot, ids: seq<nat>, eps: Slot, rest: seq<nat>)
    requires s in x.heads && Linked(x.heads[s], x.cells, ids, Head(eps)) && eps in x.heads && Walk(x, Head(eps), rest)
    ensures Walk(x, Entered(x, s), Entries(x.heads[s], x.cells, ids) + rest)
  {
    var head := x.heads[s];
    if head.fsmptr == -1 {
      assert Entries(head, x.cells, ids) + rest == rest;
    } else {
      ListWalk(x, s, ids, Head(eps), rest);
    }
  }

  lemma {:induction false} ChainWalk(x: IndexTable, p: Ptr, ids: seq<nat>, tail: Ptr, rest: seq<nat>)
    requires Chain(p, x.cells, ids, tail) && Walk(x, tail, rest)
    ensures Walk(x, p, Values(x.cells, ids) + rest)
    decreases ids
  {
    if ids == [] {
      assert Values(x.cells, ids) + rest == rest;
    } else {
      ChainWalk(x, x.cells[ids[0]].next, ids[1..], tail, rest);
      var all := Values(x.cells, ids) + rest;
      assert all[1..] == Values(x.cells, ids[1..]) + rest;
    }
  }

  lemma ListWalk(x: IndexTable, s: Slot, ids: seq<nat>, tail: Ptr, rest: seq<nat>)
    requires s in x.heads && x.heads[s].fsmptr != -1 && Linked(x.heads[s], x.cells, ids, tail) && Walk(x, tail, rest)
    ensures Walk(x, Head(s), Entries(x.heads[s], x.cells, ids) + rest)
  {
    ChainWalk(x, x.heads[s].next, ids, tail, rest);
    var all := Entries(x.heads[s], x.cells, ids) + rest;
    assert all[0] == x.heads[s].fsmptr && all[1..] == Values(x.cells, ids) + rest;
  }

  // The second place in a list.
  function Inserted(l: seq<nat>, i: nat): (r: seq<nat>)
    ensures forall j :: j in r <==> j in l || j == i
    ensures NoDup(l) && i !in l ==> NoDup(r)
  {
    if l == [] then [i] else
      var r := [l[0], i] + l[1..];
      assert forall j :: 2 <= j < |r| ==> r[j] == l[j - 1];
      assert forall j :: 1 <= j < |l| ==> l[j] == r[j + 1];
      r
  }

  lemma FirstEntry(head: Node, cells: seq<Node>, ids: seq<nat>, tail: Ptr, i: nat)
    requires Linked(head, cells, ids, tail) && head.fsmptr == -1
    ensures Linked(head.(fsmptr := i), cells, ids, tail) && Entries(head, cells, ids) == []
            && Entries(head.(fsmptr := i), cells, ids) == [i]
  {
  }

  function Slots(size: nat, chosen: set<nat>): set<Slot> {
    set q, c: nat | q in chosen && 0 <= c < size :: Slot(q, c)
  }

  lemma Bounds(size: nat, chosen: set<nat>)
    ensures forall s: Slot :: s in Slots(size, chosen) <==> s.state in chosen && s.sym < size
  {
    forall s: Slot | s.state in chosen && s.sym < size ensures s in Slots(size, chosen) {
      assert s == Slot(s.state, s.sym);
    }
  }

  // apply_index for the chosen states.
  method BuildIndex(k: Task, chosen: set<nat>) returns (x: Index)
    requires TaskOK(k)
    ensures fresh(x) && x.Valid() && x.Complete(k, |k.t|)
    ensures forall s :: s in x.heads <==> s.state in chosen && s.sym < k.size
  {
    hide TaskOK, FiledBelow, Index.Valid, Index.Lines, Inserted, NoDup;
    NothingFiled(k);
    x := new Index(k.size, chosen);
    for i := 0 to |k.t|
      invariant fresh(x) && x.Valid() && x.Complete(k, i)
      invariant forall s :: s in x.heads <==> s.state in chosen && s.sym < k.size
    {
      FileLine(x, k, chosen, i);
    }
  }

  // Line i of the table, unless its state is not chosen or it has no arc.
  method FileLine(x: Index, k: Task, chosen: set<nat>, i: nat)
    requires TaskOK(k) && i < |k.t| && x.Valid() && x.Complete(k, i)
    requires forall s :: s in x.heads <==> s.state in chosen && s.sym < k.size
    modifies x
    ensures x.Valid() && x.Complete(k, i + 1) && x.heads.Keys == old(x.heads.Keys)
  {
    hide TaskOK, FiledBelow, Index.Valid, Index.Lines, Inserted, NoDup;
    KeyOK(k, i);
    ghost var before := x.All();
    if k.t[i].state in chosen && k.t[i].target != -1 {
      x.File(i, Slot(k.t[i].state, Key(k, i)));
    }
    forall s | s in x.heads ensures FiledBelow(k, i + 1, s, x.Lines(s)) {
      FiledNext(k, i, s, before[s]);
      assert x.Lines(s) == if Filed(k, i, s) then Inserted(before[s], i) else before[s];
    }
  }

  lemma NothingFiled(k: Task)
    requires TaskOK(k)
    ensures k.size > 0 && forall s :: FiledBelow(k, 0, s, [])
  {
  }

  lemma KeyOK(k: Task, i: nat)
    requires TaskOK(k) && i < |k.t|
    ensures k.t[i].state >= 0 && (k.t[i].target != -1 ==> 0 <= Key(k, i) < k.size)
  {
    assert LineOK(k.t[i], k.n);
  }

  lemma FiledNext(k: Task, i: nat, s: Slot, lines: seq<nat>)
    requires i < |k.t| && FiledBelow(k, i, s, lines)
    ensures if Filed(k, i, s) then FiledBelow(k, i + 1, s, Inserted(lines, i)) else FiledBelow(k, i + 1, s, lines)
  {
  }
}
