// fsm_construct_* and fsm_read_* (dynarray.c), as fsm_reverse uses them: nets
// put together arc by arc in any order, and nets read arc by arc.

module Construct {
  import opened Nets
  import opened Pointers
  import opened Order
  import opened Builder
  import Determinize

  datatype Trans = Trans(inp: int, outp: int, target: nat)

  datatype StateEntry = StateEntry(isFinal: bool, isInitial: bool, trans: seq<Trans>)

  const NEW_STATE := StateEntry(false, false, [])

  ghost function ArcsFrom(q: int, trans: seq<Trans>): set<Arc> {
    set i | 0 <= i < |trans| :: Arc(q, Letter(trans[i].inp, trans[i].outp), trans[i].target)
  }

  ghost predicate Has(list: seq<StateEntry>, a: Arc) {
    0 <= a.src < |list| && a in ArcsFrom(a.src, list[a.src].trans)
  }

  // fsm_state_add_arc leaves out 0:0 loops.
  ghost predicate Loop(a: Arc) {
    a.letter == EPS && a.src == a.dst
  }

  ghost predicate TransOK(x: Trans, maxstate: int) {
    x.inp >= 0 && x.outp >= 0 && x.target <= maxstate
  }

  ghost predicate ArcsOK(trans: seq<Trans>, maxstate: int) {
    forall i :: 0 <= i < |trans| ==> TransOK(trans[i], maxstate)
  }

  // The states up to maxstate are in use; those beyond are new.
  ghost predicate ListOK(list: seq<StateEntry>, maxstate: int) {
    && -1 <= maxstate < |list|
    && (forall q :: maxstate < q < |list| ==> list[q] == NEW_STATE)
    && (forall e :: e in list ==> ArcsOK(e.trans, maxstate))
  }

  ghost predicate IsFinal(list: seq<StateEntry>, q: int) {
    0 <= q < |list| && list[q].isFinal
  }

  ghost predicate IsInitial(list: seq<StateEntry>, q: int) {
    0 <= q < |list| && list[q].isInitial
  }

  ghost predicate AnyFinal(list: seq<StateEntry>) {
    exists q :: IsFinal(list, q)
  }

  ghost predicate AnyInitial(list: seq<StateEntry>) {
    exists q :: IsInitial(list, q)
  }

  lemma SameFlags(list: seq<StateEntry>, list': seq<StateEntry>)
    ensures (forall p :: IsFinal(list, p) ==> IsFinal(list', p)) && AnyFinal(list) ==> AnyFinal(list')
    ensures (forall p :: IsInitial(list, p) ==> IsInitial(list', p)) && AnyInitial(list) ==> AnyInitial(list')
  {
    if (forall p :: IsFinal(list, p) ==> IsFinal(list', p)) && AnyFinal(list) {
      var q :| IsFinal(list, q);
      assert IsFinal(list', q);
    }
    if (forall p :: IsInitial(list, p) ==> IsInitial(list', p)) && AnyInitial(list) {
      var q :| IsInitial(list, q);
      assert IsInitial(list', q);
    }
  }

  // No initial state is final or has arcs.
  ghost predicate Idle(list: seq<StateEntry>) {
    forall q :: 0 <= q < |list| && list[q].isInitial ==> !list[q].isFinal && list[q].trans == []
  }

  lemma EntryBounds(list: seq<StateEntry>, maxstate: int, q: nat)
    requires ListOK(list, maxstate) && q <= maxstate
    ensures q < |list|
  {
  }

  // One more arc at the head of the list of q.
  lemma ArcAdded(list: seq<StateEntry>, maxstate: int, q: nat, x: Trans, list': seq<StateEntry>)
    requires ListOK(list, maxstate) && q <= maxstate && TransOK(x, maxstate)
    requires q < |list| && list' == list[q := list[q].(trans := [x] + list[q].trans)]
    ensures ListOK(list', maxstate)
    ensures forall a :: Has(list', a) <==> Has(list, a) || a == Arc(q, Letter(x.inp, x.outp), x.target)
    ensures forall p :: IsFinal(list', p) <==> IsFinal(list, p)
    ensures forall p :: IsInitial(list', p) <==> IsInitial(list, p)
  {
    hide ArcsFrom;
    var e, e' := list[q], list'[q];
    assert e in list && ArcsOK(e.trans, maxstate);
    assert ArcsOK(e'.trans, maxstate) by {
      assert forall i :: 0 < i < |e'.trans| ==> e'.trans[i] == e.trans[i - 1];
    }
    EntryChanged(list, maxstate, q, e');
    OneMoreArc(q, e.trans, x);
  }

  lemma OneMoreArc(q: int, trans: seq<Trans>, x: Trans)
    ensures ArcsFrom(q, [x] + trans) == ArcsFrom(q, trans) + {Arc(q, Letter(x.inp, x.outp), x.target)}
  {
    var more := [x] + trans;
    forall a | a in ArcsFrom(q, trans) ensures a in ArcsFrom(q, more) {
      var i :| 0 <= i < |trans| && a == Arc(q, Letter(trans[i].inp, trans[i].outp), trans[i].target);
      assert more[i + 1] == trans[i];
    }
    forall a | a in ArcsFrom(q, more) ensures a in ArcsFrom(q, trans) || a == Arc(q, Letter(x.inp, x.outp), x.target) {
      var i :| 0 <= i < |more| && a == Arc(q, Letter(more[i].inp, more[i].outp), more[i].target);
      assert i > 0 ==> more[i] == trans[i - 1];
    }
    assert more[0] == x;
  }

  lemma LastArc(q: int, trans: seq<Trans>, j: nat)
    requires j < |trans|
    ensures ArcsFrom(q, trans[..j + 1]) == ArcsFrom(q, trans[..j])
            + {Arc(q, Letter(trans[j].inp, trans[j].outp), trans[j].target)}
  {
    var more, less := trans[..j + 1], trans[..j];
    forall a | a in ArcsFrom(q, less) ensures a in ArcsFrom(q, more) {
      var i :| 0 <= i < |less| && a == Arc(q, Letter(less[i].inp, less[i].outp), less[i].target);
      assert more[i] == less[i];
    }
    forall a | a in ArcsFrom(q, more) ensures a in ArcsFrom(q, less)
        || a == Arc(q, Letter(trans[j].inp, trans[j].outp), trans[j].target) {
      var i :| 0 <= i < |more| && a == Arc(q, Letter(more[i].inp, more[i].outp), more[i].target);
      assert i < j ==> more[i] == less[i];
    }
    assert more[j] == trans[j];
  }

  // More room, or a larger maxstate, changes nothing.
  lemma Enlarged(list: seq<StateEntry>, maxstate: int, list': seq<StateEntry>, maxstate': int)
    requires ListOK(list, maxstate) && list <= list' && maxstate <= maxstate' < |list'|
    requires forall q :: |list| <= q < |list'| ==> list'[q] == NEW_STATE
    ensures ListOK(list', maxstate')
    ensures forall a :: Has(list', a) <==> Has(list, a)
    ensures forall q :: (IsFinal(list', q) <==> IsFinal(list, q)) && (IsInitial(list', q) <==> IsInitial(list, q))
  {
    forall q | 0 <= q < |list'| ensures ArcsOK(list'[q].trans, maxstate') && (maxstate' < q ==> list'[q] == NEW_STATE) {
      if q < |list| {
        assert list'[q] == list[q] && list[q] in list;
      }
    }
    forall a ensures Has(list', a) <==> Has(list, a) {
      assert 0 <= a.src < |list| ==> list'[a.src] == list[a.src];
      assert ArcsFrom(a.src, []) == {};
    }
    assert forall q :: 0 <= q < |list| ==> list'[q] == list[q];
  }

  // One entry changes.
  lemma EntryChanged(list: seq<StateEntry>, maxstate: int, q: nat, e: StateEntry)
    requires ListOK(list, maxstate) && q <= maxstate && ArcsOK(e.trans, maxstate)
    ensures ListOK(list[q := e], maxstate)
    ensures forall a :: Has(list[q := e], a) <==> (if a.src == q then a in ArcsFrom(q, e.trans) else Has(list, a))
    ensures forall p :: IsFinal(list[q := e], p) <==> (if p == q then e.isFinal else IsFinal(list, p))
    ensures forall p :: IsInitial(list[q := e], p) <==> (if p == q then e.isInitial else IsInitial(list, p))
  {
    var list' := list[q := e];
    assert list'[q] == e && forall p :: 0 <= p < |list| && p != q ==> list'[p] == list[p];
    hide ArcsOK, ArcsFrom;
    forall p ensures IsFinal(list', p) <==> (if p == q then e.isFinal else IsFinal(list, p))
             ensures IsInitial(list', p) <==> (if p == q then e.isInitial else IsInitial(list, p)) {
      assert 0 <= p < |list| && p != q ==> list'[p] == list[p];
    }
  }

  class ConstructHandle {
    var stateList: seq<StateEntry>
    var maxstate: int
    var numfinals: nat
    var hasinitial: bool

    ghost predicate Valid()
      reads this
    {
      && ListOK(stateList, maxstate)
      && (numfinals > 0 <==> AnyFinal(stateList)) && (hasinitial <==> AnyInitial(stateList))
    }

    // fsm_construct_init.
    constructor ()
      ensures Valid() && maxstate == -1 && forall a :: !Has(stateList, a)
      ensures forall q :: !IsFinal(stateList, q) && !IsInitial(stateList, q)
    {
      stateList := seq(1024, _ => NEW_STATE);
      maxstate, numfinals, hasinitial := -1, 0, false;
    }

    // fsm_construct_check_size, and the new maxstate.
    method CheckSize(q: nat)
      requires Valid()
      modifies this`stateList, this`maxstate
      ensures Valid() && q <= maxstate && maxstate == if old(maxstate) < q then q else old(maxstate)
      ensures forall a :: Has(stateList, a) <==> old(Has(stateList, a))
      ensures forall p :: IsFinal(stateList, p) <==> old(IsFinal(stateList, p))
      ensures forall p :: IsInitial(stateList, p) <==> old(IsInitial(stateList, p))
    {
      hide Has, ListOK;
      var list := stateList;
      if |list| <= q {
        var size := Determinize.NextPowerOfTwo(q);
        stateList := list + seq(size - |list|, _ => NEW_STATE);
      }
      if q > maxstate {
        maxstate := q;
      }
      SizeOK(list, old(maxstate));
      Enlarged(list, old(maxstate), stateList, maxstate);
      SameFlags(list, stateList);
      SameFlags(stateList, list);
    }

    // fsm_construct_set_final.
    method SetFinal(q: nat)
      requires Valid()
      modifies this`stateList, this`maxstate, this`numfinals
      ensures Valid() && q <= maxstate && maxstate == if old(maxstate) < q then q else old(maxstate)
      ensures forall a :: Has(stateList, a) <==> old(Has(stateList, a))
      ensures forall p :: IsFinal(stateList, p) <==> old(IsFinal(stateList, p)) || p == q
      ensures forall p :: IsInitial(stateList, p) <==> old(IsInitial(stateList, p))
    {
      hide ArcsFrom, ArcsOK, AnyFinal, AnyInitial;
      CheckSize(q);
      var list := stateList;
      assert stateList[q] in stateList;
      if stateList[q].isFinal {
        assert IsFinal(stateList, q);
      } else {
        var e := stateList[q].(isFinal := true);
          EntryChanged(stateList, maxstate, q, e);
        hide ListOK;
        stateList := stateList[q := e];
        numfinals := numfinals + 1;
        SameFlags(list, stateList);
        SameFlags(stateList, list);
        FinalAt(stateList, q);
      }
    }

    // fsm_construct_set_initial.
    method SetInitial(q: nat)
      requires Valid()
      modifies this`stateList, this`maxstate, this`hasinitial
      ensures Valid() && q <= maxstate && maxstate == if old(maxstate) < q then q else old(maxstate)
      ensures forall a :: Has(stateList, a) <==> old(Has(stateList, a))
      ensures forall p :: IsFinal(stateList, p) <==> old(IsFinal(stateList, p))
      ensures forall p :: IsInitial(stateList, p) <==> old(IsInitial(stateList, p)) || p == q
    {
      hide ArcsFrom, ArcsOK, AnyFinal, AnyInitial;
      CheckSize(q);
      var list := stateList;
      assert stateList[q] in stateList;
      var e := stateList[q].(isInitial := true);
      EntryChanged(stateList, maxstate, q, e);
      hide ListOK;
      stateList := stateList[q := e];
      hasinitial := true;
      SameFlags(list, stateList);
      SameFlags(stateList, list);
      FinalAt(stateList, q);
    }

    // fsm_construct_add_arc_nums: the arc goes to the front of its list.
    method AddArcNums(source: nat, target: nat, inp: int, outp: int)
      requires Valid() && inp >= 0 && outp >= 0
      modifies this`stateList, this`maxstate
      ensures Valid() && source <= maxstate && target <= maxstate && old(maxstate) <= maxstate
      ensures maxstate == old(maxstate) || maxstate == source || maxstate == target
      ensures forall a :: Has(stateList, a) <==> old(Has(stateList, a)) || a == Arc(source, Letter(inp, outp), target)
      ensures forall p :: IsFinal(stateList, p) <==> old(IsFinal(stateList, p))
      ensures forall p :: IsInitial(stateList, p) <==> old(IsInitial(stateList, p))
    {
      hide ArcsFrom, Has, ListOK, ArcsOK, AnyFinal, AnyInitial;
      CheckSize(source);
      CheckSize(target);
      EntryBounds(stateList, maxstate, source);
      var e := stateList[source];
      var list := stateList;
      stateList := list[source := e.(trans := [Trans(inp, outp, target)] + e.trans)];
      ArcAdded(list, maxstate, source, Trans(inp, outp, target), stateList);
      SameFlags(list, stateList);
      SameFlags(stateList, list);
    }

    // fsm_construct_done.  Without a final state, or with nothing at the initial
    // ones, the result is the empty set.
    method Done() returns (out: seq<Line>, states: nat)
      requires Valid()
      ensures IsNet(out, states) && Ascending(out)
      ensures if AnyFinal(stateList) && AnyInitial(stateList) && !Idle(stateList)
              then states == maxstate + 1 && IsBuilt(stateList, out) else out == [EMPTY_LINE] && states == 1
    {
      hide ListOK, Has, Loop, ArcsOf, FinalsOf, StartsOf, IsTable, Grouped, LoneFlags, Ascending, FlagsUpto, AnyFinal,
           AnyInitial, Idle, StateWriter.Valid, IsBuilt, StartSet;
      EmptyTable();
      SizeOK(stateList, maxstate);
      NoneUsed(stateList, maxstate);
      if maxstate == -1 || numfinals == 0 || !hasinitial {
        return [EMPTY_LINE], 1;
      }
      var writer := new StateWriter();
      var emptyfsm := true;
      NothingBuilt(stateList, writer.lines, writer.flags);
      for i := 0 to maxstate + 1
        invariant Upto(writer, i)
        invariant emptyfsm <==> Idle(stateList[..i])
      {
        var e := stateList[i];
        IdleNext(stateList, i);
        emptyfsm := WriteEntry(writer, i, e, emptyfsm);
      }
      UsedOnly(stateList, maxstate);
      if emptyfsm {
        return [EMPTY_LINE], 1;
      }
      Targets(stateList, maxstate, writer.lines);
      KeysUpto(stateList, writer.flags, maxstate + 1);
      var table, deterministic := writer.Close(maxstate + 1);
      out, states := table[..|table| - 1], writer.statecount;
      assert out == writer.lines;
      Built(stateList, maxstate, out, writer.flags);
    }

    // The states below i are written.
    ghost predicate Upto(writer: StateWriter, i: nat)
      reads this, writer
    {
      && writer.Valid(-1) && Ascending(writer.lines) && FlagsUpto(stateList, writer.flags, i)
      && (forall a :: a in ArcsOf(writer.lines) <==> Has(stateList, a) && a.src < i && !Loop(a))
      && (forall k :: 0 <= k < |writer.lines| ==> writer.lines[k].state < i)
    }

    method WriteEntry(writer: StateWriter, i: nat, e: StateEntry, empty: bool) returns (emptyfsm: bool)
      requires Valid() && Upto(writer, i) && i <= maxstate && e == stateList[i]
      modifies writer
      ensures Upto(writer, i + 1)
      ensures emptyfsm <==> empty && !(e.isInitial && (e.isFinal || e.trans != []))
    {
      hide StateWriter.Valid, Loop, AnyFinal, AnyInitial, Entered, Appended, ArcsOf;
      emptyfsm := empty && !(e.isInitial && e.isFinal);
      ghost var t0 := writer.lines;
      writer.SetCurrentState(i, e.isFinal, e.isInitial);
      EntryTrans(stateList, maxstate, i);
      WriteArcs(writer, i, e.trans);
      if e.isInitial && e.trans != [] {
        emptyfsm := false;
      }
      ghost var t1 := writer.lines;
      writer.EndState();
      AppendedTwice(t0, t1, writer.lines, i);
      AscendingMore(t0, writer.lines, i);
      AllEntered(stateList, ArcsOf(t0), i, ArcsOf(writer.lines));
    }

    // The arcs of the current state.
    method WriteArcs(writer: StateWriter, i: nat, trans: seq<Trans>)
      requires writer.Valid(i) && writer.currentState == i
               && forall j :: 0 <= j < |trans| ==> TransOK(trans[j], maxstate)
      modifies writer
      ensures writer.Valid(i) && writer.currentState == i && writer.flags == old(writer.flags)
      ensures Appended(old(writer.lines), writer.lines, i)
      ensures Entered(ArcsOf(writer.lines), old(ArcsOf(writer.lines)), i, trans, |trans|)
    {
      hide StateWriter.Valid, Entered, Appended, ArcsOf;
      ghost var t0, arcs0 := writer.lines, ArcsOf(writer.lines);
      NothingEntered(arcs0, i, trans);
      AppendedNone(t0, i);
      for j := 0 to |trans|
        invariant writer.Valid(i) && writer.currentState == i && writer.flags == old(writer.flags)
        invariant Appended(t0, writer.lines, i) && Entered(ArcsOf(writer.lines), arcs0, i, trans, j)
      {
        var x := trans[j];
        ghost var before, t1 := ArcsOf(writer.lines), writer.lines;
        writer.AddArc(x.inp, x.outp, x.target);
        NextEntered(before, arcs0, i, trans, j, ArcsOf(writer.lines));
        AppendedTwice(t0, t1, writer.lines, i);
      }
    }
  }

  lemma FinalAt(list: seq<StateEntry>, q: int)
    ensures IsFinal(list, q) ==> AnyFinal(list)
    ensures IsInitial(list, q) ==> AnyInitial(list)
  {
  }

  lemma SizeOK(list: seq<StateEntry>, maxstate: int)
    requires ListOK(list, maxstate)
    ensures -1 <= maxstate < |list|
  {
  }

  // What fsm_construct_done writes.
  ghost predicate IsBuilt(list: seq<StateEntry>, out: seq<Line>) {
    && (forall a :: a in ArcsOf(out) <==> Has(list, a) && !Loop(a))
    && (forall q :: q in FinalsOf(out) <==> IsFinal(list, q))
    && (forall q :: q in StartsOf(out) <==> IsInitial(list, q))
  }

  ghost predicate FlagsUpto(list: seq<StateEntry>, flags: map<int, Flags>, i: nat) {
    i <= |list| && (forall q :: q in flags <==> 0 <= q < i)
        && forall q :: 0 <= q < i ==> flags[q] == Flags(list[q].isFinal, list[q].isInitial)
  }

  lemma KeysUpto(list: seq<StateEntry>, flags: map<int, Flags>, i: nat)
    requires FlagsUpto(list, flags, i)
    ensures forall q :: q in flags <==> 0 <= q < i
  {
  }

  // The first j arcs of a list are entered, without loops.
  ghost predicate Entered(arcs: set<Arc>, arcs0: set<Arc>, q: int, trans: seq<Trans>, j: nat)
    requires j <= |trans|
  {
    forall a :: a in arcs <==> a in arcs0 || (a in ArcsFrom(q, trans[..j]) && !Loop(a))
  }

  // The arcs of the states below i, and now those of i.
  lemma AllEntered(list: seq<StateEntry>, arcs0: set<Arc>, i: nat, arcs: set<Arc>)
    requires i < |list| && Entered(arcs, arcs0, i, list[i].trans, |list[i].trans|)
    requires forall a :: a in arcs0 <==> Has(list, a) && a.src < i && !Loop(a)
    ensures forall a :: a in arcs <==> Has(list, a) && a.src < i + 1 && !Loop(a)
  {
    hide Loop;
    assert list[i].trans[..|list[i].trans|] == list[i].trans;
  }

  lemma NothingEntered(arcs0: set<Arc>, q: int, trans: seq<Trans>)
    ensures Entered(arcs0, arcs0, q, trans, 0)
  {
    assert ArcsFrom(q, trans[..0]) == {};
  }

  lemma NextEntered(arcs: set<Arc>, arcs0: set<Arc>, q: int, trans: seq<Trans>, j: nat, arcs': set<Arc>)
    requires j < |trans| && Entered(arcs, arcs0, q, trans, j)
    requires var x := trans[j];
             arcs' == arcs + (if x.inp == x.outp == EPSILON && x.target == q then {}
                              else {Arc(q, Letter(x.inp, x.outp), x.target)})
    ensures Entered(arcs', arcs0, q, trans, j + 1)
  {
    hide ArcsFrom, Loop;
    LastArc(q, trans, j);
    LoopIs(q, trans[j]);
  }

  lemma AppendedTwice(t0: seq<Line>, t1: seq<Line>, t2: seq<Line>, q: int)
    requires Appended(t0, t1, q) && Appended(t1, t2, q)
    ensures Appended(t0, t2, q)
  {
  }

  lemma LoopIs(q: int, x: Trans)
    ensures Loop(Arc(q, Letter(x.inp, x.outp), x.target)) <==> x.inp == x.outp == EPSILON && x.target == q
  {
  }

  lemma EntryTrans(list: seq<StateEntry>, maxstate: int, i: nat)
    requires ListOK(list, maxstate) && i <= maxstate
    ensures forall j :: 0 <= j < |list[i].trans| ==> TransOK(list[i].trans[j], maxstate)
  {
    assert list[i] in list;
  }

  lemma AscendingMore(t: seq<Line>, t': seq<Line>, q: int)
    requires Ascending(t) && Appended(t, t', q) && forall k :: 0 <= k < |t| ==> t[k].state < q
    ensures Ascending(t') && forall k :: 0 <= k < |t'| ==> t'[k].state < q + 1
  {
    assert forall k :: 0 <= k < |t| ==> t'[k] == t[k];
  }

  lemma NothingBuilt(list: seq<StateEntry>, lines: seq<Line>, flags: map<int, Flags>)
    requires lines == [] && flags == map[]
    ensures FlagsUpto(list, flags, 0) && (forall a :: Has(list, a) ==> a.src >= 0) && ArcsOf(lines) == {}
            && Ascending(lines) && Idle(list[..0])
  {
  }

  lemma IdleNext(list: seq<StateEntry>, i: nat)
    requires i < |list|
    ensures Idle(list[..i + 1]) <==> Idle(list[..i]) && !(list[i].isInitial && (list[i].isFinal || list[i].trans != []))
  {
    var more, less := list[..i + 1], list[..i];
    assert more[i] == list[i] && forall q :: 0 <= q < i ==> more[q] == less[q];
  }

  // The states beyond maxstate have nothing.
  lemma UsedOnly(list: seq<StateEntry>, maxstate: int)
    requires ListOK(list, maxstate)
    ensures Idle(list[..maxstate + 1]) <==> Idle(list)
  {
    var less := list[..maxstate + 1];
    assert forall q :: 0 <= q < |less| ==> less[q] == list[q];
  }

  lemma NoneUsed(list: seq<StateEntry>, maxstate: int)
    requires ListOK(list, maxstate)
    ensures maxstate == -1 ==> !AnyFinal(list)
  {
  }

  lemma Targets(list: seq<StateEntry>, maxstate: int, lines: seq<Line>)
    requires ListOK(list, maxstate) && forall a :: a in ArcsOf(lines) ==> Has(list, a)
    ensures forall a :: a in ArcsOf(lines) ==> 0 <= a.dst < maxstate + 1
  {
    forall a | a in ArcsOf(lines) ensures 0 <= a.dst < maxstate + 1 {
      assert Has(list, a) && list[a.src] in list;
    }
  }

  lemma Built(list: seq<StateEntry>, maxstate: int, out: seq<Line>, flags: map<int, Flags>)
    requires ListOK(list, maxstate) && FlagsUpto(list, flags, maxstate + 1)
    requires forall a :: a in ArcsOf(out) <==> Has(list, a) && a.src < maxstate + 1 && !Loop(a)
    requires StartsOf(out) == StartSet(flags) && forall q :: q in FinalsOf(out) <==> q in flags && flags[q].final
    ensures IsBuilt(list, out)
  {
    hide Loop;
    forall a | Has(list, a) ensures a.src < maxstate + 1 {
      assert ArcsFrom(a.src, []) == {};
    }
    forall q ensures q in FinalsOf(out) <==> IsFinal(list, q)
             ensures q in StartsOf(out) <==> IsInitial(list, q) {
      assert q in flags <==> 0 <= q < maxstate + 1;
    }
  }

  lemma EmptyTable()
    ensures IsNet([EMPTY_LINE], 1) && Ascending([EMPTY_LINE])
    ensures FinalsOf([EMPTY_LINE]) == {} && StartsOf([EMPTY_LINE]) == {0} && ArcsOf([EMPTY_LINE]) == {}
  {
    var t := [EMPTY_LINE];
    assert t[0] == EMPTY_LINE && HasLine(t, 0);
  }
}
