// The in-place half of fsm_coaccessible (coaccessible.c): lines of dropped
// states go, final states that lose all their arcs get a line of their own
// again, and states are renumbered, all in one pass over the same array.

module Compaction {
  import opened Nets
  import opened Pruning
  import opened Coaccessible
  import opened Order
  import Pointers

  ghost predicate KeptLine(l: Line, co: seq<bool>) {
    0 <= l.state < |co| && co[l.state] && (l.target == -1 || (0 <= l.target < |co| && co[l.target]))
  }

  ghost function Mapped(l: Line, co: seq<bool>): Line
    requires KeptLine(l, co)
  {
    Line(Renumber(co, l.state), l.inp, l.outp, if l.target == -1 then -1 else Renumber(co, l.target), l.final, l.start)
  }

  ghost function FlagLine(l: Line, co: seq<bool>): Line
    requires 0 <= l.state < |co|
  {
    Line(Renumber(co, l.state), -1, -1, -1, true, l.start)
  }

  ghost function Dropped(t: seq<Line>, co: seq<bool>, r: nat, i: nat): nat
    requires r <= i <= |t|
    decreases i
  {
    if i == r then 0 else Dropped(t, co, r, i - 1) + (if KeptLine(t[i - 1], co) then 0 else 1)
  }

  lemma {:induction false} DroppedSome(t: seq<Line>, co: seq<bool>, r: nat, i: nat)
    requires r <= i <= |t|
    ensures Dropped(t, co, r, i) <= i - r
    ensures Dropped(t, co, r, i) == 0 <==> forall k :: r <= k < i ==> KeptLine(t[k], co)
    ensures Dropped(t, co, r, i) == i - r <==> forall k :: r <= k < i ==> !KeptLine(t[k], co)
    decreases i
  {
    if r < i {
      DroppedSome(t, co, r, i - 1);
    }
  }

  // ---- The state of the pass ----

  ghost predicate FromLine(o: Line, l: Line, co: seq<bool>) {
    && 0 <= l.state < |co| && co[l.state]
    && ((KeptLine(l, co) && o == Mapped(l, co)) || (l.final && o == FlagLine(l, co)))
  }

  ghost predicate FromTable(o: Line, t: seq<Line>, i: nat, co: seq<bool>)
    requires i <= |t|
  {
    exists k :: 0 <= k < i && FromLine(o, t[k], co)
  }

  // What the lines written for the first i lines say; rows before r are done.
  ghost predicate Output(out: seq<Line>, t: seq<Line>, co: seq<bool>, i: nat, r: nat)
    requires r <= i <= |t|
  {
    && (forall k :: 0 <= k < |out| ==> FromTable(out[k], t, i, co))
    && (forall k :: 0 <= k < i && KeptLine(t[k], co) ==> Mapped(t[k], co) in out)
    && (forall k :: 0 <= k < r && t[k].final ==> 0 <= t[k].state < |co| && HasLine(out, Renumber(co, t[k].state)))
    && (i > 0 && KeptLine(t[i - 1], co) ==> out != [] && out[|out| - 1] == Mapped(t[i - 1], co))
  }

  // The current row begins at r; settled counts the lines saved before it.
  ghost predicate Row(t: seq<Line>, co: seq<bool>, i: nat, r: nat, settled: nat, size: nat, added: seq<bool>)
    requires r <= i <= |t|
  {
    && size + settled + Dropped(t, co, r, i) == i && |added| == |co|
    && (r < |t| ==> RowBegins(t, r)) && (forall k :: r <= k < i ==> t[k].state == t[r].state)
    && (forall d :: 0 < d < |co| && !co[d] && Known(t, r, d) ==> settled > 0)
    && (forall s :: 0 <= s < |co| && added[s] ==> exists k :: 0 <= k < i && t[k].state == s)
    && (r < i ==> 0 <= t[r].state < |co| && (added[t[r].state] <==> Dropped(t, co, r, i) < i - r))
  }

  // As long as nothing was saved, the states met keep their numbers.
  lemma Unmoved(t: seq<Line>, n: nat, co: seq<bool>, i: nat, r: nat, settled: nat, size: nat, added: seq<bool>)
    requires r <= i <= |t| && r < |t| && IsTable(t, n) && |co| == n && InOrder(t)
             && Row(t, co, i, r, settled, size, added)
    requires settled == 0 && co[t[r].state]
    ensures Renumber(co, t[r].state) == t[r].state
  {
    var s := t[r].state;
    assert LineOK(t[r], n);
    forall d | 0 < d <= s ensures co[d] {
      if d < s {
        assert Known(t, r, d);
      }
    }
    RenumberIdentity(co, s);
  }

  // What is known of the row that ends before line i.
  lemma RunEnd(t: seq<Line>, n: nat, co: seq<bool>, i: nat, r: nat, settled: nat, size: nat, added: seq<bool>)
    requires r < i <= |t| && IsTable(t, n) && |co| == n && InOrder(t) && Row(t, co, i, r, settled, size, added)
    requires forall q :: 0 <= q < n ==> (co[q] <==> Productive(Meaning(t, n), q))
    ensures 0 <= t[i - 1].state < n && t[i - 1].state == t[r].state && (t[i - 1].final ==> co[t[i - 1].state])
    ensures !added[t[i - 1].state] ==> size < i && forall k :: r <= k < i ==> !KeptLine(t[k], co)
    ensures |added| == n && forall k :: r <= k < i ==> t[k].state == t[r].state
    ensures size == i ==> KeptLine(t[i - 1], co)
    ensures size == i || (size == i - 1 && !added[t[i - 1].state] && t[i - 1].final) ==>
              Renumber(co, t[i - 1].state) == t[i - 1].state
  {
    hide InOrder, Known, Productive;
    var s := t[i - 1].state;
    DroppedSome(t, co, r, i);
    LineFinal(t, n, co, i - 1);
    if size == i || (size == i - 1 && !added[s] && t[i - 1].final) {
      Unmoved(t, n, co, i, r, settled, size, added);
    }
  }

  lemma LineFinal(t: seq<Line>, n: nat, co: seq<bool>, i: nat)
    requires i < |t| && IsTable(t, n) && |co| == n && forall q :: 0 <= q < n ==>
                                                                    (co[q] <==> Productive(Meaning(t, n), q))
    ensures 0 <= t[i].state < n && (t[i].final ==> co[t[i].state])
  {
    hide Productive;
    assert LineOK(t[i], n);
    if t[i].final {
      FinalIsProductive(Meaning(t, n), t[i].state);
    }
  }

  lemma LastOutput(out: seq<Line>, t: seq<Line>, co: seq<bool>, i: nat, r: nat)
    requires r <= i <= |t| && 0 < i && Output(out, t, co, i, r) && KeptLine(t[i - 1], co)
    ensures out != [] && out[|out| - 1] == Mapped(t[i - 1], co)
  {
  }

  // ---- Steps of the pass ----

  lemma StartPass(t: seq<Line>, n: nat, co: seq<bool>)
    requires IsTable(t, n) && |co| == n
    ensures Output([], t, co, 0, 0) && Row(t, co, 0, 0, 0, 0, seq(n, _ => false))
  {
  }

  // The next line starts a new row.
  lemma NewRow(t: seq<Line>, n: nat, co: seq<bool>, i: nat, r: nat, settled: nat, size: nat, added: seq<bool>,
               inserted: bool, added': seq<bool>)
    returns (settled': nat)
    requires r < i < |t| && IsTable(t, n) && Grouped(t) && |co| == n
             && (forall q :: 0 <= q < n ==> (co[q] <==> Productive(Meaning(t, n), q)))
    requires Row(t, co, i, r, settled, size, added) && t[i].state != t[i - 1].state
    requires inserted ==> t[i - 1].final && t[i - 1].state == t[r].state && !added[t[r].state]
                          && added' == added[t[r].state := true]
    requires !inserted ==> added' == added
    ensures Row(t, co, i, i, settled', size + (if inserted then 1 else 0), added')
    ensures 0 <= t[i].state < n && !added'[t[i].state]
  {
    DroppedSome(t, co, r, i);
    assert LineOK(t[r], n) && LineOK(t[i], n);
    assert t[i - 1].state == t[r].state;
    settled' := settled + Dropped(t, co, r, i) - (if inserted then 1 else 0);
    forall d | 0 < d < n && !co[d] && Known(t, i, d) ensures settled' > 0 {
      NewlyKnown(t, n, co, i, r, d);
      if Known(t, r, d) {
        assert settled > 0;
      }
    }
    FreshState(t, i, added, n);
  }

  lemma FreshState(t: seq<Line>, i: nat, added: seq<bool>, n: nat)
    requires 0 < i < |t| && Grouped(t) && t[i].state != t[i - 1].state
    ensures forall k :: 0 <= k < i ==> t[k].state != t[i].state
  {
    Pointers.FirstOfRun(t, i);
  }

  // A dropped state that becomes known with the row r..i costs a line there.
  lemma NewlyKnown(t: seq<Line>, n: nat, co: seq<bool>, i: nat, r: nat, d: int)
    requires r < i <= |t| && IsTable(t, n) && Grouped(t) && |co| == n && 0 < d < n && !co[d] && Known(t, i, d)
    requires (forall k :: r <= k < i ==> t[k].state == t[r].state) && RowBegins(t, r)
    requires forall q :: 0 <= q < n ==> (co[q] <==> Productive(Meaning(t, n), q))
    ensures Known(t, r, d) || (Dropped(t, co, r, i) > 0
                               && (t[r].final && Dropped(t, co, r, i) == i - r ==> Dropped(t, co, r, i) > 1))
  {
    hide Grouped, Productive;
    DroppedSome(t, co, r, i);
    assert LineOK(t[r], n);
    Pointers.FirstOfRun(t, r);
    var k :| 0 <= k < i && (t[k].state == d || (t[k].target == d && Companion(t, i, k)));
    if k >= r {
      assert !KeptLine(t[k], co);
      if t[k].state == d {
        DeadRow(t, n, co, d, r);
      } else {
        var m :| 0 <= m < i && m != k && t[m].state == t[k].state;
        assert m >= r;
      }
    } else if t[k].state != d {
      var m :| 0 <= m < i && m != k && t[m].state == t[k].state;
      assert Companion(t, r, k);
    }
  }

  // A state that leads nowhere is not final.
  lemma DeadRow(t: seq<Line>, n: nat, co: seq<bool>, d: int, r: nat)
    requires r < |t| && |co| == n && 0 <= d < n && !co[d] && forall q :: 0 <= q < n ==>
                                                                           (co[q] <==> Productive(Meaning(t, n), q))
    requires t[r].state == d
    ensures !t[r].final
  {
    if t[r].final {
      FinalIsProductive(Meaning(t, n), d);
    }
  }

  lemma Snoc(out: seq<Line>, o: Line)
    ensures forall x :: x in out + [o] <==> x in out || x == o
    ensures forall q :: HasLine(out, q) ==> HasLine(out + [o], q)
    ensures HasLine(out + [o], o.state)
  {
    var all := out + [o];
    assert all[|out|] == o;
    forall x | x in out ensures x in all {
      var k :| 0 <= k < |out| && out[k] == x;
      assert all[k] == x;
    }
    forall q | HasLine(out, q) ensures HasLine(all, q) {
      var k :| 0 <= k < |out| && out[k].state == q;
      assert all[k].state == q;
    }
  }

  lemma MoreLines(out: seq<Line>, t: seq<Line>, i: nat, co: seq<bool>)
    requires i < |t| && forall k :: 0 <= k < |out| ==> FromTable(out[k], t, i, co)
    ensures forall k :: 0 <= k < |out| ==> FromTable(out[k], t, i + 1, co)
  {
    forall k | 0 <= k < |out| ensures FromTable(out[k], t, i + 1, co) {
      var m :| 0 <= m < i && FromLine(out[k], t[m], co);
      assert 0 <= m < i + 1;
    }
  }

  // The row before line i ends; it is final, and all its lines were dropped.
  lemma FlagAgain(out: seq<Line>, t: seq<Line>, n: nat, co: seq<bool>, i: nat, r: nat)
    requires r < i <= |t| && IsTable(t, n) && |co| == n && Output(out, t, co, i, r) && t[i - 1].final
             && co[t[i - 1].state]
    requires forall k :: r <= k < i ==> t[k].state == t[i - 1].state && !KeptLine(t[k], co)
    ensures Output(out + [FlagLine(t[i - 1], co)], t, co, i, i)
  {
    var o := FlagLine(t[i - 1], co);
    Snoc(out, o);
    assert LineOK(t[i - 1], n);
    assert FromLine(o, t[i - 1], co);
    forall k | 0 <= k < |out + [o]| ensures FromTable((out + [o])[k], t, i, co) {
      if k < |out| {
        assert FromTable(out[k], t, i, co);
      }
    }
  }

  // The row before line i ends and needs no line of its own.
  lemma RowEnded(out: seq<Line>, t: seq<Line>, n: nat, co: seq<bool>, i: nat, r: nat)
    requires r < i <= |t| && IsTable(t, n) && |co| == n && Output(out, t, co, i, r)
    requires forall k :: r <= k < i ==> t[k].state == t[r].state
    requires t[r].final ==> exists k :: r <= k < i && KeptLine(t[k], co)
    ensures Output(out, t, co, i, i)
  {
    assert LineOK(t[r], n);
    if t[r].final {
      var m :| r <= m < i && KeptLine(t[m], co);
      var p :| 0 <= p < |out| && out[p] == Mapped(t[m], co);
      assert HasLine(out, Renumber(co, t[r].state));
    }
    forall k | r <= k < i && t[k].final ensures t[r].final {
    }
  }

  lemma KeepOne(out: seq<Line>, t: seq<Line>, n: nat, co: seq<bool>, i: nat, r: nat)
    requires r <= i < |t| && IsTable(t, n) && |co| == n && Output(out, t, co, i, r) && KeptLine(t[i], co)
    ensures Output(out + [Mapped(t[i], co)], t, co, i + 1, r)
  {
    hide IsTable, FromTable;
    var o := Mapped(t[i], co);
    Snoc(out, o);
    MoreLines(out, t, i, co);
    KeptFromTable(t, i, co);
  }

  lemma KeptFromTable(t: seq<Line>, i: nat, co: seq<bool>)
    requires i < |t| && KeptLine(t[i], co)
    ensures FromTable(Mapped(t[i], co), t, i + 1, co)
  {
    assert FromLine(Mapped(t[i], co), t[i], co);
  }

  lemma DropOne(out: seq<Line>, t: seq<Line>, n: nat, co: seq<bool>, i: nat, r: nat)
    requires r <= i < |t| && IsTable(t, n) && |co| == n && Output(out, t, co, i, r) && !KeptLine(t[i], co)
    ensures Output(out, t, co, i + 1, r)
  {
    hide IsTable, FromTable;
    MoreLines(out, t, i, co);
  }

  lemma RowNext(t: seq<Line>, n: nat, co: seq<bool>, i: nat, r: nat, settled: nat, size: nat, added: seq<bool>,
                added': seq<bool>)
    requires r <= i < |t| && LineOK(t[i], n) && |co| == n && Row(t, co, i, r, settled, size, added)
             && t[i].state == t[r].state
    requires r == i ==> !added[t[i].state]
    requires added' == if KeptLine(t[i], co) then added[t[i].state := true] else added
    ensures Row(t, co, i + 1, r, settled, size + (if KeptLine(t[i], co) then 1 else 0), added')
  {
    hide Known, RowBegins;
    DroppedSome(t, co, r, i);
    forall s | 0 <= s < |co| && added'[s] ensures exists k :: 0 <= k < i + 1 && t[k].state == s {
      if s != t[i].state {
        var k :| 0 <= k < i && t[k].state == s;
      }
    }
  }

  // ---- The pass ----

  class Compactor {
    const fsm: array<Line>
    const n: nat
    const co: seq<bool>
    const mapping: seq<nat>
    var added: seq<bool>
    var j: nat
    ghost const t: seq<Line>
    ghost var r: nat
    ghost var settled: nat

    // Before line i: the first j lines are output, the rest from j on input.
    ghost predicate At(i: nat)
      reads this, fsm
    {
      && Given() && r <= i <= |t| && j <= i
      && Output(fsm[..j], t, co, i, r) && Row(t, co, i, r, settled, j, added)
      && (forall k :: j <= k < |t| ==> fsm[k] == t[k]) && fsm[|t|].state == -1
    }

    ghost predicate Given()
      reads this, fsm
    {
      && IsTable(t, n) && Grouped(t) && InOrder(t) && |co| == |mapping| == n && fsm.Length > |t|
      && (forall q :: 0 <= q < n ==> (co[q] <==> Productive(Meaning(t, n), q)))
      && (forall q :: 0 <= q < n && co[q] ==> mapping[q] == Renumber(co, q))
    }

    constructor (fsm: array<Line>, n: nat, co: seq<bool>, mapping: seq<nat>, ghost t: seq<Line>)
      requires IsTable(t, n) && Grouped(t) && InOrder(t) && |co| == |mapping| == n && fsm.Length > |t|
      requires forall q :: 0 <= q < n ==> (co[q] <==> Productive(Meaning(t, n), q))
      requires forall q :: 0 <= q < n && co[q] ==> mapping[q] == Renumber(co, q)
      requires fsm[..|t|] == t && fsm[|t|].state == -1
      ensures At(0) && this.fsm == fsm && this.t == t && this.n == n && this.co == co
    {
      this.fsm := fsm;
      this.n := n;
      this.co := co;
      this.mapping := mapping;
      this.t := t;
      added := seq(n, _ => false);
      j := 0;
      r, settled := 0, 0;
      new;
      StartPass(t, n, co);
      assert fsm[..0] == [];
      assert forall k :: 0 <= k < |t| ==> fsm[k] == fsm[..|t|][k];
    }

    // The line before i still shows its state and flags, even if it has been
    // overwritten.
    lemma Previous(i: nat)
      requires At(i) && r < i
      ensures fsm[i - 1].state == t[i - 1].state == t[r].state && fsm[i - 1].final == t[i - 1].final
              && fsm[i - 1].start == t[i - 1].start
      ensures 0 <= t[i - 1].state < n && (t[i - 1].final ==> co[t[i - 1].state])
      ensures !added[t[i - 1].state] ==> j < i && forall k :: r <= k < i ==> !KeptLine(t[k], co)
    {
      hide Output, Row, InOrder, Productive, IsTable, Grouped, RowBegins;
      RunEnd(t, n, co, i, r, settled, j, added);
      if j == i {
        LastOutput(fsm[..j], t, co, i, r);
        assert fsm[..j][j - 1] == fsm[i - 1];
      }
    }

    // The flag line that a final state without arcs gets.
    method Reinsert(i: nat)
      requires At(i) && r < i && t[i - 1].final && !added[t[i - 1].state]
      modifies this`j, this`added, fsm
      ensures added == old(added)[t[i - 1].state := true] && j == old(j) + 1 && j <= i
      ensures Given() && Output(fsm[..j], t, co, i, i) && (forall k :: j <= k < |t| ==> fsm[k] == t[k])
              && fsm[|t|].state == -1
    {
      hide Output, Row, InOrder, Productive, IsTable, Grouped, RowBegins;
      Previous(i);
      RunEnd(t, n, co, i, r, settled, j, added);
      ghost var out, s := fsm[..j], t[i - 1].state;
      FlagAgain(out, t, n, co, i, r);
      fsm[j] := Line(mapping[fsm[i - 1].state], -1, -1, -1, true, fsm[i - 1].start);
      j := j + 1;
      assert fsm[..j] == out + [FlagLine(t[i - 1], co)];
      assert fsm[i - 1].state == s;
      added := added[fsm[i - 1].state := true];
    }

    // "addf": the row before line i ends.
    method Boundary(i: nat)
      requires At(i) && i < |t| && (i > 0 ==> r < i)
      modifies this`j, this`added, this`r, this`settled, fsm
      ensures At(i) && t[i].state == t[r].state && 0 <= t[i].state < n && (r == i ==> !added[t[i].state])
    {
      hide Output, Row, InOrder, Productive, IsTable, Grouped;
      if i == 0 {
        FirstLine();
        return;
      }
      Previous(i);
      RunEnd(t, n, co, i, r, settled, j, added);
      LineFinal(t, n, co, i);
      ghost var inserted, old0 := false, added;
      if fsm[i].state != fsm[i - 1].state && fsm[i - 1].final && !added[fsm[i - 1].state] {
        ghost var size := j;
        inserted := true;
        Reinsert(i);
        settled := NewRow(t, n, co, i, r, settled, size, old0, true, added);
        r := i;
      } else if fsm[i].state != fsm[i - 1].state {
        KeptSome(i);
        RowEnded(fsm[..j], t, n, co, i, r);
        settled := NewRow(t, n, co, i, r, settled, j, old0, false, added);
        r := i;
      }
    }

    lemma FirstLine()
      requires At(0) && 0 < |t|
      ensures r == 0 && 0 <= t[0].state < n && !added[t[0].state]
    {
      assert LineOK(t[0], n);
    }

    // The row is not final, or one of its lines was kept.
    lemma KeptSome(i: nat)
      requires At(i) && r < i && !(t[i - 1].final && !added[t[i - 1].state])
      ensures t[r].final ==> exists k :: r <= k < i && KeptLine(t[k], co)
    {
      hide Productive, InOrder, Output, Grouped, Known;
      DroppedSome(t, co, r, i);
      assert t[i - 1].state == t[r].state;
    }

    // One line of the table.
    method Treat(i: nat)
      requires At(i) && i < |t| && t[i].state == t[r].state && 0 <= t[i].state < n && (r == i ==> !added[t[i].state])
      modifies this`j, this`added, fsm
      ensures At(i + 1)
    {
      hide Output, Row, InOrder, Productive, IsTable, Grouped;
      LineFinal(t, n, co, i);
      ThisLine(i);
      ghost var out, before := fsm[..j], added;
      if co[fsm[i].state] && (fsm[i].target == -1 || co[fsm[i].target]) {
        KeepOne(out, t, n, co, i, r);
        fsm[j] := Line(mapping[fsm[i].state], fsm[i].inp, fsm[i].outp, if fsm[i].target == -1
                       then -1 else mapping[fsm[i].target],
                       fsm[i].final, fsm[i].start);
        j := j + 1;
        assert fsm[..j] == out + [Mapped(t[i], co)];
        assert fsm[i].state == t[i].state;
        added := added[fsm[i].state := true];
      } else {
        DropOne(out, t, n, co, i, r);
      }
      RowNext(t, n, co, i, r, settled, |out|, before, added);
    }

    lemma ThisLine(i: nat)
      requires At(i) && i < |t| && t[i].state == t[r].state
      ensures LineOK(t[i], n) && |added| == n && r <= i
      ensures j == i && co[t[i].state] ==> Renumber(co, t[i].state) == t[i].state
    {
      hide Output, Productive, Grouped, InOrder;
      assert LineOK(t[i], n);
      if j == i && co[t[i].state] {
        Unmoved(t, n, co, i, r, settled, j, added);
      }
    }

    // The pass over all lines; the sentinel follows what was written.
    method Run() returns (lines: nat)
      requires At(0) && n > 0 && (n == 1 ==> co[0])
      modifies this`j, this`added, this`r, this`settled, fsm
      ensures lines < fsm.Length && fsm[lines].state == -1 && Output(fsm[..lines], t, co, |t|, |t|)
    {
      hide Output, Row, InOrder, Productive, IsTable, Grouped;
      var i := 0;
      while fsm[i].state != -1
        invariant i <= |t| && At(i) && (i > 0 ==> r < i)
        decreases |t| - i
      {
        InputLeft(i);
        Boundary(i);
        Treat(i);
        i := i + 1;
      }
      AllRead(i);
      Last(i);
      if i > 1 && fsm[i - 1].final && !added[fsm[i - 1].state] {
        Reinsert(i);
      } else {
        if i > 1 {
          KeptSome(i);
        }
        RowEnded(fsm[..j], t, n, co, i, r);
      }
      ghost var out := fsm[..j];
      fsm[j] := SENTINEL;
      lines := j;
      assert fsm[..lines] == out;
    }

    lemma InputLeft(i: nat)
      requires At(i) && fsm[i].state != -1
      ensures i < |t|
    {
    }

    // The loop stops at the sentinel, not before.
    lemma AllRead(i: nat)
      requires At(i) && fsm[i].state == -1
      ensures i == |t|
    {
      hide Output, Row, InOrder, Productive, Grouped;
      assert i < |t| ==> LineOK(t[i], n);
    }

    // A table of one line keeps it.
    lemma Last(i: nat)
      requires At(i) && i == |t| && n > 0 && (n == 1 ==> co[0]) && (i > 0 ==> r < i)
      ensures i > 0 && r < i && forall k :: r <= k < i ==> t[k].state == t[r].state
      ensures fsm[i - 1].final == t[i - 1].final && fsm[i - 1].state == t[i - 1].state && 0 <= t[i - 1].state < n
              && |added| == n
      ensures i == 1 ==> KeptLine(t[0], co)
    {
      hide Output, Row, InOrder, Productive, Grouped;
      assert HasLine(t, 0);
      Previous(i);
      RunEnd(t, n, co, i, r, settled, j, added);
      if i == 1 {
        OneLine(t, n);
        assert LineOK(t[0], n);
      }
    }
  }

  lemma OneLine(t: seq<Line>, n: nat)
    requires IsTable(t, n) && |t| == 1 && n > 0
    ensures n == 1
  {
    assert HasLine(t, 0);
    assert HasLine(t, n - 1);
  }

  // ---- The result ----

  lemma {:induction false} CountKept(co: seq<bool>, s: nat)
    requires s < |co| && co[0]
    ensures Kept(co, s) + 1 == |Marked(co[..s + 1])|
    decreases s
  {
    var all := co[..s + 1];
    if s == 0 {
      assert Marked(all) == {0};
    } else {
      CountKept(co, s - 1);
      assert Marked(all) == Marked(co[..s]) + (if co[s] then {s} else {});
    }
  }

  // Facts about a finished output.
  ghost predicate Done(out: seq<Line>, t: seq<Line>, n: nat, co: seq<bool>) {
    && IsTable(t, n) && |co| == n > 0 && co[0] && Output(out, t, co, |t|, |t|)
    && (forall q :: 0 <= q < n ==> (co[q] <==> Productive(Meaning(t, n), q)))
  }

  lemma OutputLine(out: seq<Line>, t: seq<Line>, n: nat, co: seq<bool>, i: nat) returns (k: nat)
    requires Done(out, t, n, co) && i < |out|
    ensures k < |t| && FromLine(out[i], t[k], co) && out[i].state == Renumber(co, t[k].state) && LineOK(t[k], n)
    ensures out[i].final == t[k].final && out[i].start == t[k].start
    ensures LineOK(out[i], Kept(co, n - 1) + 1)
  {
    hide Productive;
    assert FromTable(out[i], t, |t|, co);
    k :| 0 <= k < |t| && FromLine(out[i], t[k], co);
    assert LineOK(t[k], n);
    KeptGrows(co, t[k].state, n - 1);
    if t[k].target != -1 {
      KeptGrows(co, t[k].target, n - 1);
    }
  }

  lemma OutputArcs(out: seq<Line>, t: seq<Line>, n: nat, co: seq<bool>)
    requires Done(out, t, n, co)
    ensures Closed(Meaning(t, n)) && ArcsOf(out) == KeptArcs(ArcsOf(t), co)
  {
    TableIsClosed(t, n);
    hide Productive, Done, IsTable, ArcsOf, KeptArcs, Closed;
    forall a | a in ArcsOf(out) ensures a in KeptArcs(ArcsOf(t), co) {
      ArcKept(out, t, n, co, a);
    }
    forall a | a in KeptArcs(ArcsOf(t), co) ensures a in ArcsOf(out) {
      KeptIsArc(out, t, n, co, a);
    }
  }

  lemma ArcKept(out: seq<Line>, t: seq<Line>, n: nat, co: seq<bool>, a: Arc)
    requires Done(out, t, n, co) && Closed(Meaning(t, n)) && |co| == n && a in ArcsOf(out)
    ensures a in KeptArcs(ArcsOf(t), co)
  {
    hide Productive, Done, IsTable;
    var i :| 0 <= i < |out| && out[i].target != -1 && LineArc(out[i]) == a;
    var k := OutputLine(out, t, n, co, i);
    assert LineArc(t[k]) in ArcsOf(t);
  }

  lemma KeptIsArc(out: seq<Line>, t: seq<Line>, n: nat, co: seq<bool>, a: Arc)
    requires Done(out, t, n, co) && Closed(Meaning(t, n)) && |co| == n && a in KeptArcs(ArcsOf(t), co)
    ensures a in ArcsOf(out)
  {
    hide Productive, Done, IsTable;
    var b :| b in ArcsOf(t) && co[b.src] && co[b.dst] && a == Arc(Renumber(co, b.src), b.letter, Renumber(co, b.dst));
    var k :| 0 <= k < |t| && t[k].target != -1 && LineArc(t[k]) == b;
    LineIsOutput(out, t, n, co, k);
    var i :| 0 <= i < |out| && out[i] == Mapped(t[k], co);
    assert LineArc(out[i]) == a;
  }

  lemma LineIsOutput(out: seq<Line>, t: seq<Line>, n: nat, co: seq<bool>, k: nat)
    requires Done(out, t, n, co) && k < |t| && KeptLine(t[k], co)
    ensures Mapped(t[k], co) in out
  {
  }

  // A productive state has an arc to a productive one, or is final.
  lemma ProductiveLine(t: seq<Line>, n: nat, q: int) returns (k: nat)
    requires IsTable(t, n) && Productive(Meaning(t, n), q)
    ensures k < |t| && t[k].state == q && LineOK(t[k], n)
    ensures t[k].final || (t[k].target != -1 && Productive(Meaning(t, n), t[k].target))
  {
    var m := Meaning(t, n);
    var f :| f in m.finals && Reaches(m.arcs, q, f);
    var path: seq<Arc> :| Path(m.arcs, q, path, f);
    if path == [] {
      k :| 0 <= k < |t| && t[k].final && t[k].state == q;
    } else {
      var a := path[0];
      assert Path(m.arcs, a.dst, path[1..], f);
      assert Reaches(m.arcs, a.dst, f) && Productive(m, a.dst);
      k :| 0 <= k < |t| && t[k].target != -1 && LineArc(t[k]) == a;
    }
  }

  // Every kept state has a line.
  lemma StateHasLine(out: seq<Line>, t: seq<Line>, n: nat, co: seq<bool>, q: int)
    requires Done(out, t, n, co) && 0 <= q < n && co[q]
    ensures HasLine(out, Renumber(co, q))
  {
    hide Productive, Reaches;
    var k := ProductiveLine(t, n, q);
    if KeptLine(t[k], co) {
      LineIsOutput(out, t, n, co, k);
      var i :| 0 <= i < |out| && out[i] == Mapped(t[k], co);
    }
  }

  lemma OutputTable(out: seq<Line>, t: seq<Line>, n: nat, co: seq<bool>)
    requires Done(out, t, n, co)
    ensures IsTable(out, Kept(co, n - 1) + 1)
  {
    hide Done;
    DoneFacts(out, t, n, co);
    var size := Kept(co, n - 1) + 1;
    forall i | 0 <= i < |out| ensures LineOK(out[i], size) {
      var k := OutputLine(out, t, n, co, i);
    }
    forall q | 0 <= q < size ensures HasLine(out, q) {
      var p := RenumberOnto(co, n - 1, q);
      StateHasLine(out, t, n, co, p);
    }
    forall i, j | 0 <= i < |out| && 0 <= j < |out| && out[i].state == out[j].state
      ensures out[i].final == out[j].final && out[i].start == out[j].start {
      var k := OutputLine(out, t, n, co, i);
      var l := OutputLine(out, t, n, co, j);
      RenumberInjective(co, t[k].state, t[l].state);
      SameFlags(t, n, k, l);
    }
  }

  lemma DoneFacts(out: seq<Line>, t: seq<Line>, n: nat, co: seq<bool>)
    requires Done(out, t, n, co)
    ensures IsTable(t, n) && |co| == n > 0 && co[0]
    ensures forall q :: 0 <= q < n ==> (co[q] <==> Productive(Meaning(t, n), q))
  {
  }

  lemma SameFlags(t: seq<Line>, n: nat, k: nat, l: nat)
    requires IsTable(t, n) && k < |t| && l < |t| && t[k].state == t[l].state
    ensures t[k].final == t[l].final && t[k].start == t[l].start
  {
  }

  lemma OutputFlags(out: seq<Line>, t: seq<Line>, n: nat, co: seq<bool>, q: int)
    requires Done(out, t, n, co)
    ensures q in FinalsOf(out) <==> Renumbered(FinalsOf(t), co, q)
    ensures q in StartsOf(out) <==> Renumbered(StartsOf(t), co, q)
  {
    hide Done, Productive;
    DoneFacts(out, t, n, co);
    if q in FinalsOf(out) {
      var i :| 0 <= i < |out| && out[i].final && out[i].state == q;
      var k := OutputLine(out, t, n, co, i);
      assert t[k].state in FinalsOf(t);
    }
    if q in StartsOf(out) {
      var i :| 0 <= i < |out| && out[i].start && out[i].state == q;
      var k := OutputLine(out, t, n, co, i);
      assert t[k].state in StartsOf(t);
    }
    forall p | 0 <= p < n && co[p] && Renumber(co, p) == q
      ensures p in FinalsOf(t) ==> q in FinalsOf(out)
      ensures p in StartsOf(t) ==> q in StartsOf(out) {
      StateHasLine(out, t, n, co, p);
      var i :| 0 <= i < |out| && out[i].state == q;
      var k := OutputLine(out, t, n, co, i);
      RenumberInjective(co, t[k].state, p);
      FlagOfState(t, n, k);
    }
  }

  lemma FlagOfState(t: seq<Line>, n: nat, k: nat)
    requires IsTable(t, n) && k < |t|
    ensures (t[k].state in FinalsOf(t) <==> t[k].final) && (t[k].state in StartsOf(t) <==> t[k].start)
  {
  }

  lemma OutputPruned(out: seq<Line>, t: seq<Line>, n: nat, co: seq<bool>)
    requires Done(out, t, n, co)
    ensures IsPruned(Meaning(t, n), Meaning(out, Kept(co, n - 1) + 1), co)
  {
    hide Done, Productive;
    DoneFacts(out, t, n, co);
    OutputArcs(out, t, n, co);
    var m, k := Meaning(t, n), Meaning(out, Kept(co, n - 1) + 1);
    forall q ensures q in k.finals <==> Renumbered(m.finals, co, q) {
      OutputFlags(out, t, n, co, q);
    }
    forall q ensures q in k.starts <==> Renumbered(m.starts, co, q) {
      OutputFlags(out, t, n, co, q);
    }
  }

  // "mapping": state 0 always exists.
  method MakeMapping(co: seq<bool>) returns (mapping: seq<nat>)
    requires |co| > 0
    ensures |mapping| == |co| && forall q :: 0 <= q < |co| && co[q] ==> mapping[q] == Renumber(co, q)
  {
    mapping := seq(|co|, _ => 0);
    var j := 0;
    for i := 1 to |co|
      invariant |mapping| == |co| && j == Kept(co, i - 1) && mapping[0] == 0
      invariant forall q :: 0 <= q < i && co[q] ==> mapping[q] == Renumber(co, q)
    {
      if co[i] {
        j := j + 1;
        mapping := mapping[i := j];
      }
    }
  }

  // fsm_coaccessible.  When there are final states, the result is a table for the
  // states counted exactly if state 0 leads to one of them, as it does in nets
  // whose states are all reachable: the code gives the number 0 to state 0 alone.
  method FsmCoaccessible(fsm: array<Line>, n: nat, ghost t: seq<Line>)
    returns (out: array<Line>, lines: nat, statecount: nat)
    requires IsTable(t, n) && Grouped(t) && InOrder(t) && n > 0
    requires fsm.Length > |t| && fsm[..|t|] == t && fsm[|t|].state == -1
    modifies fsm
    ensures (out == fsm || fresh(out)) && lines < out.Length && out[lines].state == -1
    ensures FinalsOf(t) == {} ==> statecount == 0 && out[..lines] == [EMPTY_LINE]
    ensures FinalsOf(t) != {} ==> (IsTable(out[..lines], statecount) <==> Productive(Meaning(t, n), 0))
    ensures FinalsOf(t) != {} && Productive(Meaning(t, n), 0) ==>
              && Trim(Meaning(out[..lines], statecount))
                 && SameLanguage(Meaning(t, n), Meaning(out[..lines], statecount))
              && exists co :: IsPruned(Meaning(t, n), Meaning(out[..lines], statecount), co)
  {
    hide IsTable, Grouped, InOrder, Output, Productive, IsPruned, Done, Trim, SameLanguage, FinalsOf, StartsOf, ArcsOf;
    var count := CountLines(fsm, t, n);
    var co, markcount, all := FindCoaccessible(fsm[..count], n);
    AnyFinal(t, n, co);
    if all {
      AllKept(t, n, co);
      return fsm, count, n;
    }
    if markcount == 0 {
      out := new Line[2][EMPTY_LINE, SENTINEL];
      assert out[..1] == [EMPTY_LINE];
      return out, 1, 0;
    }
    var mapping := MakeMapping(co);
    var c := new Compactor(fsm, n, co, mapping, t);
    out, statecount := fsm, markcount;
    lines := c.Run();
    if co[0] {
      OutputIs(out[..lines], t, n, co);
    } else {
      NoStateZero(out[..lines], t, n, co, statecount);
    }
  }

  lemma OutputIs(out: seq<Line>, t: seq<Line>, n: nat, co: seq<bool>)
    requires IsTable(t, n) && |co| == n > 0 && co[0] && Output(out, t, co, |t|, |t|)
    requires forall q :: 0 <= q < n ==> (co[q] <==> Productive(Meaning(t, n), q))
    ensures var k := Meaning(out, |Marked(co)|);
            && IsTable(out, |Marked(co)|) && Trim(k) && SameLanguage(Meaning(t, n), k) && IsPruned(Meaning(t, n), k, co)
  {
    hide IsTable, Output, Productive, IsPruned, Done, Trim, SameLanguage;
    CountKept(co, n - 1);
    assert co[..n] == co;
    IsDone(out, t, n, co);
    OutputTable(out, t, n, co);
    OutputPruned(out, t, n, co);
    PrunedLanguage(Meaning(t, n), Meaning(out, |Marked(co)|), co);
    PrunedTrim(Meaning(t, n), Meaning(out, |Marked(co)|), co);
  }

  // When state 0 is dropped, no other state takes its number.
  lemma NoStateZero(out: seq<Line>, t: seq<Line>, n: nat, co: seq<bool>, states: nat)
    requires |co| == n > 0 && !co[0] && Output(out, t, co, |t|, |t|) && states > 0
    ensures !IsTable(out, states)
  {
    forall i | 0 <= i < |out| ensures out[i].state != 0 {
      assert FromTable(out[i], t, |t|, co);
      var k :| 0 <= k < |t| && FromLine(out[i], t[k], co);
      assert t[k].state != 0 && Kept(co, t[k].state) > 0;
    }
    assert !HasLine(out, 0);
  }

  // The lines up to the sentinel.
  method CountLines(fsm: array<Line>, ghost t: seq<Line>, ghost n: nat) returns (count: nat)
    requires IsTable(t, n) && fsm.Length > |t| && fsm[..|t|] == t && fsm[|t|].state == -1
    ensures count == |t|
  {
    TableLines(t, n);
    count := 0;
    while fsm[count].state != -1
      invariant count <= |t|
      decreases |t| - count
    {
      assert count < |t|;
      count := count + 1;
    }
    assert count < |t| ==> LineOK(fsm[..|t|][count], n);
  }

  lemma IsDone(out: seq<Line>, t: seq<Line>, n: nat, co: seq<bool>)
    requires IsTable(t, n) && |co| == n > 0 && co[0] && Output(out, t, co, |t|, |t|)
    requires forall q :: 0 <= q < n ==> (co[q] <==> Productive(Meaning(t, n), q))
    ensures Done(out, t, n, co)
  {
  }

  // No state is kept exactly when there is no final state.
  lemma AnyFinal(t: seq<Line>, n: nat, co: seq<bool>)
    requires IsTable(t, n) && n > 0 && |co| == n && forall q :: 0 <= q < n ==> (co[q] <==> Productive(Meaning(t, n), q))
    ensures |Marked(co)| == 0 <==> FinalsOf(t) == {}
    ensures co[0] ==> FinalsOf(t) != {}
  {
    var m := Meaning(t, n);
    if FinalsOf(t) == {} {
      assert forall q :: q !in m.finals;
      assert Marked(co) == {};
    } else {
      var q := SomeFinal(t, n);
      assert LineOK(t[q], n);
      FinalIsProductive(m, t[q].state);
      assert t[q].state in Marked(co);
    }
  }

  lemma SomeFinal(t: seq<Line>, n: nat) returns (i: nat)
    requires FinalsOf(t) != {}
    ensures i < |t| && t[i].final && t[i].state in FinalsOf(t)
  {
    assert (forall q :: q !in FinalsOf(t)) ==> FinalsOf(t) == {};
    var q :| q in FinalsOf(t);
    i :| 0 <= i < |t| && t[i].final && t[i].state == q;
  }

  lemma AllKept(t: seq<Line>, n: nat, co: seq<bool>)
    requires IsTable(t, n) && n > 0 && |co| == n && (forall q :: 0 <= q < n ==> co[q])
    requires forall q :: 0 <= q < n ==> (co[q] <==> Productive(Meaning(t, n), q))
    ensures Trim(Meaning(t, n)) && SameLanguage(Meaning(t, n), Meaning(t, n))
            && IsPruned(Meaning(t, n), Meaning(t, n), co)
  {
    hide Productive, IsTable, Renumber, Kept, Accepts, IsPruned;
    TableIsClosed(t, n);
    forall q | 0 <= q < n ensures Renumber(co, q) == q {
      RenumberIdentity(co, q);
    }
    KeptAsIs(Meaning(t, n), co);
  }

  lemma KeptAsIs(m: Net, co: seq<bool>)
    requires Closed(m) && m.states > 0 && |co| == m.states
             && (forall q :: 0 <= q < m.states ==> co[q] && Renumber(co, q) == q)
    requires forall q :: 0 <= q < m.states ==> (co[q] <==> Productive(m, q))
    ensures IsPruned(m, m, co)
  {
    hide Renumber, Kept, KeptArcs, Productive, Renumbered, Closed;
    assert Renumber(co, m.states - 1) == m.states - 1;
    LastNumber(co);
    SameArcs(m, co);
    SameImages(m, co);
  }

  lemma LastNumber(co: seq<bool>)
    requires |co| > 0
    ensures Kept(co, |co| - 1) == Renumber(co, |co| - 1)
  {
  }

  lemma SameImages(m: Net, co: seq<bool>)
    requires Closed(m) && |co| == m.states && (forall q :: 0 <= q < m.states ==> co[q] && Renumber(co, q) == q)
    ensures forall q :: q in m.finals <==> Renumbered(m.finals, co, q)
    ensures forall q :: q in m.starts <==> Renumbered(m.starts, co, q)
  {
    hide Renumber;
    forall q ensures q in m.finals <==> Renumbered(m.finals, co, q) {
      assert q in m.finals ==> Renumber(co, q) == q;
    }
    forall q ensures q in m.starts <==> Renumbered(m.starts, co, q) {
      assert q in m.starts ==> Renumber(co, q) == q;
    }
  }

  lemma SameArcs(m: Net, co: seq<bool>)
    requires Closed(m) && |co| == m.states && (forall q :: 0 <= q < m.states ==> co[q] && Renumber(co, q) == q)
    ensures KeptArcs(m.arcs, co) == m.arcs
  {
    hide Renumber;
    forall a | a in m.arcs ensures a in KeptArcs(m.arcs, co) {
      assert a == Arc(Renumber(co, a.src), a.letter, Renumber(co, a.dst));
    }
    forall a | a in KeptArcs(m.arcs, co) ensures a in m.arcs {
      var b :| b in m.arcs && co[b.src] && co[b.dst] && a == Arc(Renumber(co, b.src), b.letter, Renumber(co, b.dst));
      assert a == b;
    }
  }
}
