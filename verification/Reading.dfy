// fsm_read_* (dynarray.c): the arcs, initial and final states of a net, one
// after the other.

module Reading {
  import opened Nets
  import opened Counting
  import Builder

  // list holds the members of s, in ascending order, and then -1.
  ghost predicate Lists(list: seq<int>, s: set<int>) {
    && list != [] && list[|list| - 1] == -1
    && Elements(list[..|list| - 1]) == s
    && (forall i, j :: 0 <= i < j < |list| - 1 ==> list[i] < list[j])
    && (forall i :: 0 <= i < |list| - 1 ==> list[i] >= 0)
  }

  datatype StateBits = StateBits(initial: bool, final: bool)

  class ReadHandle {
    const states: seq<Line>          // with the sentinel
    const initials: seq<int>
    const finals: seq<int>
    var arcsCursor: int              // -1: not begun
    var initialsCursor: int
    var finalsCursor: int
    ghost const t: seq<Line>

    ghost predicate Valid()
      reads this
    {
      && states == t + [SENTINEL] && (forall i :: 0 <= i < |t| ==> t[i].state >= 0)
      && Lists(initials, StartsOf(t)) && Lists(finals, FinalsOf(t))
      && -1 <= arcsCursor <= |t| && -1 <= initialsCursor < |initials| && -1 <= finalsCursor < |finals|
    }

    constructor (states: seq<Line>, initials: seq<int>, finals: seq<int>, ghost t: seq<Line>)
      requires states == t + [SENTINEL] && (forall i :: 0 <= i < |t| ==> t[i].state >= 0)
      requires Lists(initials, StartsOf(t)) && Lists(finals, FinalsOf(t))
      ensures Valid() && this.t == t && this.initials == initials && this.finals == finals
      ensures arcsCursor == initialsCursor == finalsCursor == -1
    {
      this.states, this.initials, this.finals, this.t := states, initials, finals, t;
      arcsCursor, initialsCursor, finalsCursor := -1, -1, -1;
    }

    // The lines the cursor has come to.
    ghost function Seen(): seq<Line>
      requires Valid()
      reads this
    {
      if arcsCursor < |t| then t[..arcsCursor + 1] else t
    }

    // fsm_get_next_arc.
    method NextArc() returns (more: bool)
      requires Valid()
      modifies this`arcsCursor
      ensures Valid()
      ensures if more then 0 <= arcsCursor < |t| && t[arcsCursor].target != -1
                           && ArcsOf(Seen()) == old(ArcsOf(Seen())) + {LineArc(t[arcsCursor])}
              else old(ArcsOf(Seen())) == ArcsOf(t)
      ensures if more then old(arcsCursor) < arcsCursor else old(arcsCursor) <= arcsCursor
    {
      ghost var seen := Seen();
      if arcsCursor != -1 && states[arcsCursor].state == -1 {
        assert arcsCursor == |t|;
        return false;
      }
      arcsCursor := arcsCursor + 1;
      while states[arcsCursor].state != -1 && states[arcsCursor].target == -1
        invariant Valid() && old(arcsCursor) < arcsCursor && ArcsOf(t[..arcsCursor]) == ArcsOf(seen)
        decreases |t| - arcsCursor
      {
        NextLine(t, arcsCursor);
        arcsCursor := arcsCursor + 1;
      }
      more := states[arcsCursor].state != -1;
      if more {
        NextLine(t, arcsCursor);
      } else {
        assert arcsCursor == |t| && t[..|t|] == t;
      }
    }

    // fsm_get_next_final.
    method NextFinal() returns (q: int)
      requires Valid()
      modifies this`finalsCursor
      ensures Valid() && finalsCursor >= 0 && q == finals[finalsCursor]
      ensures finalsCursor == if old(finalsCursor) >= 0
              && finals[old(finalsCursor)] == -1 then old(finalsCursor) else old(finalsCursor) + 1
    {
      if finalsCursor == -1 {
        finalsCursor := 0;
      } else {
        if finals[finalsCursor] == -1 {
          return -1;
        }
        finalsCursor := finalsCursor + 1;
      }
      return finals[finalsCursor];
    }

    // fsm_get_next_initial.
    method NextInitial() returns (q: int)
      requires Valid()
      modifies this`initialsCursor
      ensures Valid() && initialsCursor >= 0 && q == initials[initialsCursor]
      ensures initialsCursor == if old(initialsCursor) >= 0
              && initials[old(initialsCursor)] == -1 then old(initialsCursor) else old(initialsCursor) + 1
    {
      if initialsCursor == -1 {
        initialsCursor := 0;
      } else {
        if initials[initialsCursor] == -1 {
          return -1;
        }
        initialsCursor := initialsCursor + 1;
      }
      return initials[initialsCursor];
    }
  }

  lemma NextLine(t: seq<Line>, i: nat)
    requires i < |t|
    ensures ArcsOf(t[..i + 1]) == ArcsOf(t[..i]) + (if t[i].target == -1 then {} else {LineArc(t[i])})
  {
    assert t[..i + 1] == t[..i] + [t[i]];
    Builder.ArcsSnoc(t[..i], t[i]);
  }

  ghost function InitialSet(bits: seq<StateBits>): set<int> {
    set q | 0 <= q < |bits| && bits[q].initial
  }

  ghost function FinalBits(bits: seq<StateBits>): set<int> {
    set q | 0 <= q < |bits| && bits[q].final
  }

  // fsm_read_init: the lookup table of the states, and the lists made from it.
  method ReadInit(t: seq<Line>, n: nat) returns (h: ReadHandle)
    requires IsTable(t, n)
    ensures fresh(h) && h.Valid() && h.t == t && h.arcsCursor == h.initialsCursor == h.finalsCursor == -1
  {
    hide IsTable, StartsOf, FinalsOf, Lists;
    TableLines(t, n);
    var bits := LookupTable(t, n);
    var initials, finals := [], [];
    NoneListed();
    for i := 0 to n
      invariant |bits| == n && Sublist(initials, InitialSet(bits), i) && Sublist(finals, FinalBits(bits), i)
    {
      NextListed(initials, InitialSet(bits), i);
      NextListed(finals, FinalBits(bits), i);
      if bits[i].initial {
        initials := initials + [i];
      }
      if bits[i].final {
        finals := finals + [i];
      }
    }
    AllListed(initials, InitialSet(bits), n);
    AllListed(finals, FinalBits(bits), n);
    h := new ReadHandle(t + [SENTINEL], initials + [-1], finals + [-1], t);
  }

  method LookupTable(t: seq<Line>, n: nat) returns (bits: seq<StateBits>)
    requires IsTable(t, n)
    ensures |bits| == n && InitialSet(bits) == StartsOf(t) && FinalBits(bits) == FinalsOf(t)
  {
    hide IsTable, FinalsOf, StartsOf;
    bits := seq(n, _ => StateBits(false, false));
    NoLines(t[..0]);
    for i := 0 to |t|
      invariant |bits| == n && InitialSet(bits) == StartsOf(t[..i]) && FinalBits(bits) == FinalsOf(t[..i])
    {
      TableLine(t, n, i);
      assert t[..i + 1] == t[..i] + [t[i]];
      FinalsSnoc(t[..i], t[i]);
      StartsSnoc(t[..i], t[i]);
      var s := t[i].state;
      ghost var before := bits;
      if t[i].start && !bits[s].initial {
        bits := bits[s := bits[s].(initial := true)];
      }
      if t[i].final && !bits[s].final {
        bits := bits[s := bits[s].(final := true)];
      }
      assert InitialSet(bits) == InitialSet(before) + (if t[i].start then {s} else {});
      assert FinalBits(bits) == FinalBits(before) + (if t[i].final then {s} else {});
    }
    assert t[..|t|] == t;
  }

  // The members of s below i, in order.
  ghost predicate Sublist(list: seq<int>, s: set<int>, i: nat) {
    && (forall q :: q in list <==> q in s && 0 <= q < i)
    && (forall j, k :: 0 <= j < k < |list| ==> list[j] < list[k])
  }

  lemma NoneListed()
    ensures forall s :: Sublist([], s, 0)
  {
  }

  lemma NextListed(list: seq<int>, s: set<int>, i: nat)
    requires Sublist(list, s, i)
    ensures Sublist(if i in s then list + [i] else list, s, i + 1)
  {
    forall k | 0 <= k < |list| ensures list[k] < i {
      assert list[k] in list;
    }
  }

  lemma AllListed(list: seq<int>, s: set<int>, n: nat)
    requires Sublist(list, s, n) && forall q :: q in s ==> 0 <= q < n
    ensures Lists(list + [-1], s)
  {
    var more := list + [-1];
    assert more[..|more| - 1] == list;
    assert forall q :: q in Elements(list) <==> q in s;
    assert forall i, j :: 0 <= i < j < |more| - 1 ==> more[i] == list[i] && more[j] == list[j];
    forall k | 0 <= k < |list| ensures list[k] >= 0 {
      assert list[k] in list;
    }
  }
}
