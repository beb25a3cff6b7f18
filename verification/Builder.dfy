// fsm_state_* (dynarray.c): a net is written state by state; arcs that repeat
// the last one with the same symbols are skipped, and flags are kept.

module Builder {
  import opened Nets
  import opened Counting
  import opened Pointers
  import opened Order

  datatype Slot = Slot(target: int, mainloop: nat)

  datatype Flags = Flags(final: bool, start: bool)

  ghost predicate IsLine(l: Line, flags: map<int, Flags>) {
    && l.state >= 0 && l.state in flags && Flags(l.final, l.start) == flags[l.state]
    && (if l.target == -1 then l.inp == -1 && l.outp == -1 else l.target >= 0 && l.inp >= 0 && l.outp >= 0)
  }

  // The lines belong to the states opened so far; the state being written
  // comes last.
  ghost predicate Written(lines: seq<Line>, flags: map<int, Flags>, current: int) {
    && (forall i :: 0 <= i < |lines| ==> IsLine(lines[i], flags))
    && (forall q :: q in flags ==> q >= 0 && (q != current ==> HasLine(lines, q)))
    && (forall i, j :: 0 <= i < j < |lines| && lines[i].state == current ==> lines[j].state == current)
    && (forall i :: 0 <= i < |lines| && lines[i].state == current ==> lines[i].target != -1)
    && Grouped(lines) && LoneFlags(lines)
  }

  lemma ArcsSnoc(lines: seq<Line>, l: Line)
    ensures ArcsOf(lines + [l]) == ArcsOf(lines) + (if l.target == -1 then {} else {LineArc(l)})
  {
    var t := lines + [l];
    forall a | a in ArcsOf(lines) ensures a in ArcsOf(t) {
      var i :| 0 <= i < |lines| && lines[i].target != -1 && LineArc(lines[i]) == a;
      assert t[i] == lines[i];
    }
    if l.target != -1 {
      assert t[|lines|] == l;
    }
  }

  lemma WrittenSnoc(lines: seq<Line>, flags: map<int, Flags>, current: int, l: Line)
    requires Written(lines, flags, current) && IsLine(l, flags) && l.state == current && l.target != -1
    ensures Written(lines + [l], flags, current) && HasLine(lines + [l], current)
  {
    hide HasLine;
    SnocHasLine(lines, l);
    assert forall i :: 0 <= i < |lines| ==> (lines + [l])[i] == lines[i];
  }

  lemma SnocHasLine(lines: seq<Line>, l: Line)
    ensures HasLine(lines + [l], l.state) && forall q :: HasLine(lines, q) ==> HasLine(lines + [l], q)
  {
    var t := lines + [l];
    assert t[|lines|] == l;
    forall q | HasLine(lines, q) ensures HasLine(t, q) {
      var i :| 0 <= i < |lines| && lines[i].state == q;
      assert t[i] == lines[i];
    }
  }

  // The state is left without arcs: a line for its flags.
  lemma WrittenFlags(lines: seq<Line>, flags: map<int, Flags>, current: int, l: Line)
    requires Written(lines, flags, current) && !HasLine(lines, current) && IsLine(l, flags) && l.state == current
             && l.target == -1
    ensures Written(lines + [l], flags, -1)
  {
    hide HasLine, Grouped, LoneFlags;
    SnocHasLine(lines, l);
    FirstOfState(lines, l);
    var t := lines + [l];
    forall i | 0 <= i < |t| ensures t[i].state != -1 && IsLine(t[i], flags) {
      assert i < |lines| ==> t[i] == lines[i] && IsLine(lines[i], flags);
    }
  }

  lemma FirstOfState(lines: seq<Line>, l: Line)
    requires Grouped(lines) && LoneFlags(lines) && !HasLine(lines, l.state)
    ensures Grouped(lines + [l]) && LoneFlags(lines + [l])
  {
    var t := lines + [l];
    assert forall i :: 0 <= i < |lines| ==> t[i] == lines[i] && lines[i].state != l.state;
  }

  lemma WrittenOpen(lines: seq<Line>, flags: map<int, Flags>, q: int, f: Flags)
    requires Written(lines, flags, -1) && q !in flags && q >= 0
    ensures Written(lines, flags[q := f], q) && !HasLine(lines, q)
  {
    forall i | 0 <= i < |lines| ensures lines[i].state != q && IsLine(lines[i], flags[q := f]) {
      assert IsLine(lines[i], flags);
    }
  }

  lemma WrittenClose(lines: seq<Line>, flags: map<int, Flags>, current: int)
    requires Written(lines, flags, current) && HasLine(lines, current)
    ensures Written(lines, flags, -1)
  {
    forall i | 0 <= i < |lines| ensures lines[i].state != -1 {
      assert IsLine(lines[i], flags);
    }
  }

  // A finished net over the states below n.
  lemma WrittenTable(lines: seq<Line>, flags: map<int, Flags>, n: nat)
    requires Written(lines, flags, -1) && (forall q :: q in flags <==> 0 <= q < n)
    requires forall a :: a in ArcsOf(lines) ==> 0 <= a.dst < n
    ensures IsTable(lines, n) && Grouped(lines) && LoneFlags(lines)
    ensures forall q :: q in FinalsOf(lines) <==> q in flags && flags[q].final
    ensures forall q :: q in StartsOf(lines) <==> q in flags && flags[q].start
  {
    forall i | 0 <= i < |lines| ensures LineOK(lines[i], n)
        && Flags(lines[i].final, lines[i].start) == flags[lines[i].state] {
      assert IsLine(lines[i], flags);
      assert lines[i].target != -1 ==> LineArc(lines[i]) in ArcsOf(lines);
    }
    forall q | q in flags ensures q in FinalsOf(lines) <==> flags[q].final
                          ensures q in StartsOf(lines) <==> flags[q].start {
      assert HasLine(lines, q);
      var i :| 0 <= i < |lines| && lines[i].state == q;
      assert IsLine(lines[i], flags);
    }
  }

  lemma NoArcsFrom(lines: seq<Line>, flags: map<int, Flags>, current: int, q: int)
    requires Written(lines, flags, current) && (q !in flags || q == -1)
    ensures forall a :: a in ArcsOf(lines) ==> a.src != q && a.src >= 0 && a.dst >= 0 && a.letter.inp >= 0
                                               && a.letter.outp >= 0
  {
    forall a | a in ArcsOf(lines) ensures a.src != q && a.src >= 0 && a.dst >= 0 && a.letter.inp >= 0
        && a.letter.outp >= 0 {
      var i :| 0 <= i < |lines| && lines[i].target != -1 && LineArc(lines[i]) == a;
      assert IsLine(lines[i], flags);
    }
  }

  lemma HasArcLine(lines: seq<Line>, a: Arc)
    requires a in ArcsOf(lines)
    ensures HasLine(lines, a.src) && ArcLine(lines, a.src, a.dst)
  {
    var i :| 0 <= i < |lines| && lines[i].target != -1 && LineArc(lines[i]) == a;
  }

  // The slots of the symbol pairs; a slot stamped with mainloop was used in
  // the state being written.
  ghost predicate SlotsOK(slots: map<Letter, Slot>, arcs: set<Arc>, current: int, mainloop: nat, deterministic: bool) {
    && (forall l :: l in slots ==> slots[l].mainloop <= mainloop)
    && (forall l :: l in slots && slots[l].mainloop == mainloop ==> Arc(current, l, slots[l].target) in arcs)
    && (forall a :: a in arcs && a.src == current ==>
          a.letter in slots && slots[a.letter].mainloop == mainloop
              && (deterministic ==> slots[a.letter].target == a.dst))
  }

  ghost predicate NoChoice(arcs: set<Arc>) {
    Functional(arcs) && EpsilonFree(arcs)
  }

  // One more arc: the net stays without choices unless the slot of its symbols
  // holds another target.
  lemma AddChoice(arcs: set<Arc>, a: Arc, slots: map<Letter, Slot>, mainloop: nat, deterministic: bool)
    requires SlotsOK(slots, arcs, a.src, mainloop, deterministic) && (deterministic <==> NoChoice(arcs))
    requires a.letter in slots && slots[a.letter].mainloop == mainloop ==> slots[a.letter].target != a.dst
    ensures var d := deterministic && a.letter != EPS && !(a.letter in slots && slots[a.letter].mainloop == mainloop);
            (d <==> NoChoice(arcs + {a})) && (EpsilonFree(arcs + {a}) <==> EpsilonFree(arcs) && a.letter != EPS)
                && SlotsOK(slots[a.letter := Slot(a.dst, mainloop)], arcs + {a}, a.src, mainloop, d)
  {
    var arcs' := arcs + {a};
    if a.letter in slots && slots[a.letter].mainloop == mainloop {
      assert Arc(a.src, a.letter, slots[a.letter].target) in arcs';
      assert a in arcs';
    }
    if NoChoice(arcs') {
      assert NoChoice(arcs);
      assert a in arcs';
    }
    assert a in arcs';
  }

  // The same arc again changes nothing.
  lemma AgainChosen(arcs: set<Arc>, a: Arc, slots: map<Letter, Slot>, mainloop: nat, deterministic: bool)
    requires SlotsOK(slots, arcs, a.src, mainloop, deterministic)
    requires a.letter in slots && slots[a.letter] == Slot(a.dst, mainloop)
    ensures a in arcs && arcs + {a} == arcs
    ensures a.letter == EPS ==> !NoChoice(arcs) && !EpsilonFree(arcs)
  {
  }

  lemma AppendedNone(t: seq<Line>, q: int)
    ensures Appended(t, t, q)
  {
  }

  ghost function StartSet(flags: map<int, Flags>): set<int> {
    set q | q in flags && flags[q].start
  }

  lemma OneMoreStart(flags: map<int, Flags>, q: int, f: Flags)
    requires q !in flags
    ensures |StartSet(flags[q := f])| == |StartSet(flags)| + (if f.start then 1 else 0)
    ensures |flags[q := f].Keys| == |flags.Keys| + 1
  {
    var a, b := StartSet(flags), StartSet(flags[q := f]);
    if f.start {
      assert b == a + {q};
    } else {
      assert b == a;
    }
    assert flags[q := f].Keys == flags.Keys + {q};
  }

  // A state not written yet has no slots and no arcs.
  lemma NoSlots(lines: seq<Line>, flags: map<int, Flags>, q: int, slots: map<Letter, Slot>, mainloop: nat,
                deterministic: bool)
    requires Written(lines, flags, -1) && q !in flags && SlotsOK(slots, ArcsOf(lines), -1, mainloop, deterministic)
    ensures SlotsOK(slots, ArcsOf(lines), q, mainloop, deterministic)
  {
    hide Written;
    NoArcsFrom(lines, flags, -1, q);
    NoArcsFrom(lines, flags, -1, -1);
  }

  class StateWriter {
    var lines: seq<Line>
    var currentState: int
    var currentFinal: bool
    var currentStart: bool
    var currentTrans: bool
    var isDeterministic: bool
    var isEpsilonFree: bool
    var arity: int
    var mainloop: nat
    var statecount: nat
    var numInitials: nat
    var slots: map<Letter, Slot>
    ghost var flags: map<int, Flags>

    // current is the state being written, or -1 between states.
    ghost predicate Valid(current: int)
      reads this
    {
      && Written(lines, flags, current) && numInitials == |StartSet(flags)|
      && (isDeterministic <==> NoChoice(ArcsOf(lines))) && (isEpsilonFree <==> EpsilonFree(ArcsOf(lines)))
      && SlotsOK(slots, ArcsOf(lines), current, mainloop, isDeterministic)
      && (if current == -1 then statecount == |flags.Keys| else statecount + 1 == |flags.Keys| && Current(current))
    }

    ghost predicate Current(current: int)
      reads this
    {
      && current >= 0 && current in flags && currentState == current
         && flags[current] == Flags(currentFinal, currentStart)
      && (currentTrans <==> HasLine(lines, current))
    }

    // fsm_state_init.
    constructor ()
      ensures Valid(-1) && lines == [] && flags == map[]
    {
      lines := [];
      slots := map[];
      mainloop := 1;
      isDeterministic, isEpsilonFree, arity := true, true, 1;
      statecount, numInitials := 0, 0;
      currentState, currentFinal, currentStart, currentTrans := 0, false, false, true;
      flags := map[];
    }

    // fsm_state_set_current_state.
    method SetCurrentState(q: int, final: bool, start: bool)
      requires Valid(-1) && q >= 0 && q !in flags
      modifies this
      ensures Valid(q) && currentState == q && flags == old(flags)[q := Flags(final, start)] && lines == old(lines)
    {
      hide Written, NoChoice, ArcsOf, EpsilonFree, HasLine, SlotsOK, StartSet;
      currentState, currentFinal, currentStart, currentTrans := q, final, start, false;
      if start {
        numInitials := numInitials + 1;
      }
      WrittenOpen(lines, flags, q, Flags(final, start));
      NoSlots(lines, flags, q, slots, mainloop, isDeterministic);
      OneMoreStart(flags, q, Flags(final, start));
      flags := flags[q := Flags(final, start)];
    }

    // fsm_state_add_arc, for the state being written.
    method AddArc(inp: int, outp: int, target: int)
      requires Valid(currentState) && currentState >= 0 && inp >= 0 && outp >= 0 && target >= 0
      modifies this
      ensures Valid(currentState) && currentState == old(currentState) && flags == old(flags)
      ensures ArcsOf(lines) == old(ArcsOf(lines)) + (if inp == outp == EPSILON && target == currentState then {}
                                                     else {Arc(currentState, Letter(inp, outp), target)})
      ensures Appended(old(lines), lines, currentState)
    {
      hide Written, NoChoice, Grouped, SlotsOK, ArcsOf, EpsilonFree, HasLine, StartSet;
      if inp != outp {
        arity := 2;
      }
      if inp == EPSILON && outp == EPSILON && currentState == target {
        assert ArcsOf(lines) + {} == ArcsOf(lines);
        return;
      }
      AddLetter(Letter(inp, outp), target);
    }

    method AddLetter(l: Letter, target: int)
      requires Valid(currentState) && currentState >= 0 && l.inp >= 0 && l.outp >= 0 && target >= 0
      requires l == EPS ==> target != currentState
      modifies this`lines, this`currentTrans, this`isDeterministic, this`isEpsilonFree, this`slots
      ensures Valid(currentState)
      ensures ArcsOf(lines) == old(ArcsOf(lines)) + {Arc(currentState, l, target)}
              && Appended(old(lines), lines, currentState)
    {
      hide Written, NoChoice, Grouped, SlotsOK, ArcsOf, EpsilonFree, HasLine, StartSet, Appended;
      AppendedNone(lines, currentState);
      var again := ChooseTarget(l, target);
      if again {
        return;
      }
      currentTrans := true;
      AddLine(Line(currentState, l.inp, l.outp, target, currentFinal, currentStart));
    }

    // The flags, and the target noted for the letter, if it is not there yet.
    method ChooseTarget(l: Letter, target: int) returns (again: bool)
      requires SlotsOK(slots, ArcsOf(lines), currentState, mainloop, isDeterministic)
      requires (isDeterministic <==> NoChoice(ArcsOf(lines))) && (isEpsilonFree <==> EpsilonFree(ArcsOf(lines)))
      modifies this`isDeterministic, this`isEpsilonFree, this`slots
      ensures var arcs, arcs' := ArcsOf(lines), ArcsOf(lines) + {Arc(currentState, l, target)};
              && (isDeterministic <==> NoChoice(arcs')) && (isEpsilonFree <==> EpsilonFree(arcs'))
              && SlotsOK(slots, arcs', currentState, mainloop, isDeterministic) && (again ==> arcs' == arcs)
    {
      hide NoChoice, SlotsOK, ArcsOf, EpsilonFree;
      ghost var a := Arc(currentState, l, target);
      if l == EPS {
        isDeterministic, isEpsilonFree := false, false;
      }
      if l in slots && slots[l].mainloop == mainloop {
        if slots[l].target == target {
          AgainChosen(ArcsOf(lines), a, slots, mainloop, old(isDeterministic));
          return true;
        }
        isDeterministic := false;
      }
      AddChoice(ArcsOf(lines), a, slots, mainloop, old(isDeterministic));
      slots := slots[l := Slot(target, mainloop)];
      again := false;
    }

    method AddLine(l: Line)
      requires Written(lines, flags, l.state) && IsLine(l, flags) && (l.target == -1 ==> !HasLine(lines, l.state))
      modifies this`lines
      ensures Written(lines, flags, if l.target == -1 then -1 else l.state) && HasLine(lines, l.state)
      ensures ArcsOf(lines) == old(ArcsOf(lines)) + (if l.target == -1 then {} else {LineArc(l)})
      ensures Appended(old(lines), lines, l.state)
    {
      hide Written, HasLine, ArcsOf;
      SnocHasLine(lines, l);
      ArcsSnoc(lines, l);
      if l.target == -1 {
        WrittenFlags(lines, flags, l.state, l);
      } else {
        WrittenSnoc(lines, flags, l.state, l);
      }
      lines := lines + [l];
    }

    // fsm_state_end_state.
    method EndState()
      requires Valid(currentState) && currentState >= 0
      modifies this
      ensures Valid(-1) && ArcsOf(lines) == old(ArcsOf(lines)) && flags == old(flags)
      ensures Appended(old(lines), lines, old(currentState)) && HasLine(lines, old(currentState))
    {
      hide Written, NoChoice, ArcsOf, EpsilonFree, HasLine;
      if !currentTrans {
        AddLine(Line(currentState, -1, -1, -1, currentFinal, currentStart));
        assert ArcsOf(lines) == old(ArcsOf(lines));
      } else {
        WrittenClose(lines, flags, currentState);
      }
      NoArcsFrom(lines, flags, -1, -1);
      statecount := statecount + 1;
      mainloop := mainloop + 1;
    }

    // fsm_state_close.
    method Close(ghost n: nat) returns (states: seq<Line>, deterministic: bool)
      requires Valid(-1) && (forall q :: q in flags <==> 0 <= q < n)
               && forall a :: a in ArcsOf(lines) ==> 0 <= a.dst < n
      modifies this`isDeterministic
      ensures states == lines + [SENTINEL] && statecount == n && IsTable(lines, n) && Grouped(lines) && LoneFlags(lines)
      ensures StartsOf(lines) == StartSet(flags) && forall q :: q in FinalsOf(lines) <==> q in flags && flags[q].final
      ensures deterministic <==> NoChoice(ArcsOf(lines)) && |StartsOf(lines)| <= 1
    {
      hide Written, NoChoice;
      WrittenTable(lines, flags, n);
      assert flags.Keys == Below(n);
      BelowSize(n);
      assert StartsOf(lines) == StartSet(flags);
      states := lines + [SENTINEL];
      if numInitials > 1 {
        isDeterministic := false;
      }
      deterministic := isDeterministic;
    }
  }
}
