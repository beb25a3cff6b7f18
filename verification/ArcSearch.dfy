// apply_binarysearch (apply.c): in a state without flags whose arcs are sorted
// by the symbol looked for, the first arc that can be followed is found by
// bisection; small states and unknown symbols are scanned.

module ArcSearch {
  import opened Nets
  import opened Lookup
  import opened ArcIndex

  const THRESHOLD := 10

  // Lines first..last are the row of a state: sorted, without flags, and with
  // arcs unless it is a single line.
  ghost predicate SortedRow(k: Task, first: nat, last: nat) {
    && first <= last < |k.t| && |k.sigs| == |k.word|
    && (forall i :: first <= i <= last ==> k.t[i].state == k.t[first].state && SymIn(k, i) !in k.flags)
    && (forall i :: first <= i <= last ==> (SymIn(k, i) == -1 <==> k.t[i].target == -1) && SymIn(k, i) >= -1)
    && (forall i :: first <= i <= last && SymIn(k, i) == -1 ==> first == last)
    && (forall i, j :: first <= i < j <= last ==> SymIn(k, i) <= SymIn(k, j))
    && (forall p :: 0 <= p < |k.sigs| ==> k.sigs[p].signumber >= IDENTITY)
  }

  ghost predicate Viable(k: Task, ipos: nat, i: nat)
    requires i < |k.t| && |k.sigs| == |k.word|
  {
    k.t[i].target != -1 && Eats(k, ipos, i).Some?
  }

  // The first viable line at or after ptr.
  ghost predicate Least(k: Task, ipos: nat, ptr: nat, last: nat, found: bool, at: nat)
    requires ptr <= last < |k.t| && |k.sigs| == |k.word|
  {
    if found then ptr <= at <= last && Viable(k, ipos, at) && forall i :: ptr <= i < at ==> !Viable(k, ipos, i)
    else forall i :: ptr <= i <= last ==> !Viable(k, ipos, i)
  }

  predicate Matches(k: Task, seeksym: int, i: nat)
    requires i < |k.t|
  {
    SymIn(k, i) == seeksym || (SymIn(k, i) == UNKNOWN && seeksym == IDENTITY)
  }

  // What is viable once there is no epsilon.
  lemma ViableIs(k: Task, first: nat, last: nat, ipos: nat, i: nat)
    requires SortedRow(k, first, last) && first <= i <= last && SymIn(k, i) != EPSILON
    ensures Viable(k, ipos, i) <==> ipos < |k.word| && Matches(k, k.sigs[ipos].signumber, i)
  {
  }

  method BinarySearch(k: Task, ghost first: nat, last: nat, ptr: nat, ipos: nat) returns (found: bool, currPtr: nat)
    requires SortedRow(k, first, last) && first <= ptr <= last
    ensures Least(k, ipos, ptr, last, found, currPtr)
  {
    currPtr := ptr;
    var nextsym := SymIn(k, ptr);
    if nextsym == EPSILON {
      return true, ptr;
    }
    forall i | ptr <= i <= last ensures Viable(k, ipos, i) <==> ipos < |k.word|
                                                                && Matches(k, k.sigs[ipos].signumber, i) {
      ViableIs(k, first, last, ipos, i);
    }
    if nextsym == -1 || ipos >= |k.word| {
      return false, ptr;
    }
    var seeksym := k.sigs[ipos].signumber;
    if seeksym == nextsym || (nextsym == UNKNOWN && seeksym == IDENTITY) {
      return true, ptr;
    }
    if seeksym == IDENTITY || last - (ptr + 1) < THRESHOLD {
      found, currPtr := Scan(k, first, last, ptr, seeksym);
    } else {
      found, currPtr := Bisect(k, first, last, ptr, seeksym);
    }
  }

  method Scan(k: Task, ghost first: nat, last: nat, ptr: nat, seeksym: int) returns (found: bool, currPtr: nat)
    requires SortedRow(k, first, last) && first <= ptr <= last && SymIn(k, ptr) > 0 && seeksym >= IDENTITY
    ensures if found then ptr < currPtr <= last && Matches(k, seeksym, currPtr)
                          && forall i :: ptr < i < currPtr ==> !Matches(k, seeksym, i)
            else forall i :: ptr < i <= last ==> !Matches(k, seeksym, i)
  {
    var thisptr := ptr + 1;
    while thisptr <= last
      invariant ptr < thisptr <= last + 1 && forall i :: ptr < i < thisptr ==> !Matches(k, seeksym, i)
    {
      var nextsym := SymIn(k, thisptr);
      if nextsym == seeksym || (nextsym == UNKNOWN && seeksym == IDENTITY) {
        return true, thisptr;
      }
      if nextsym > seeksym || nextsym == -1 {
        return false, ptr;
      }
      thisptr := thisptr + 1;
    }
    return false, ptr;
  }

  method Bisect(k: Task, ghost first: nat, last: nat, ptr: nat, seeksym: int) returns (found: bool, currPtr: nat)
    requires SortedRow(k, first, last) && first <= ptr <= last && SymIn(k, ptr) != seeksym && seeksym > IDENTITY
    ensures if found then ptr < currPtr <= last && Matches(k, seeksym, currPtr)
                          && forall i :: ptr < i < currPtr ==> !Matches(k, seeksym, i)
            else forall i :: ptr < i <= last ==> !Matches(k, seeksym, i)
  {
    var thisptr, lastptr: int := ptr + 1, last;
    while thisptr <= lastptr
      invariant ptr < thisptr <= last + 1 && ptr <= lastptr <= last
      invariant forall i :: ptr < i < thisptr ==> SymIn(k, i) < seeksym
      invariant forall i :: lastptr < i <= last ==> SymIn(k, i) > seeksym
      decreases lastptr - thisptr
    {
      var midptr := (thisptr + lastptr) / 2;
      var nextsym := SymIn(k, midptr);
      if seeksym < nextsym {
        lastptr := midptr - 1;
      } else if seeksym > nextsym {
        thisptr := midptr + 1;
      } else {
        // the first of equal ones: the walk ends at ptr at the latest
        while SymIn(k, midptr - 1) == seeksym
          invariant ptr < midptr <= last && SymIn(k, midptr) == seeksym
          decreases midptr
        {
          midptr := midptr - 1;
        }
        return true, midptr;
      }
    }
    return false, ptr;
  }

  // ---- What apply_init and apply_down prepare ----

  // The number of lines of every state, the states with flags, and the index, if
  // there is one for the direction of the lookup; fast when the arcs of every
  // state are sorted in this direction.
  datatype Speed = Speed(binsearch: bool, numlines: seq<nat>, flagstates: seq<bool>, indexed: bool, index: IndexTable)

  // From where it is entered, the index leads over the lines listed.
  ghost predicate IndexOK(k: Task, x: IndexTable) {
    && x.heads.Keys == k.lists.Keys
    && (forall s :: s in k.lists ==> Slot(s.state, EPSILON) in k.lists && Walk(x, Entered(x, s), Chained(k, s)))
  }

  ghost predicate RowLength(k: Task, q: int, length: nat)
    requires 0 <= q < |k.first|
  {
    && length > 0 && k.first[q] + length <= |k.t|
    && (forall i :: k.first[q] <= i < k.first[q] + length ==> k.t[i].state == q)
    && (k.first[q] + length < |k.t| ==> k.t[k.first[q] + length].state != q)
  }

  ghost predicate HasFlag(k: Task, i: nat)
    requires i < |k.t|
  {
    k.t[i].target != -1 && (k.t[i].inp in k.flags || k.t[i].outp in k.flags)
  }

  // What the mark arcs_sorted_in (for apply_down; arcs_sorted_out for apply_up)
  // stands for.
  ghost predicate SortedArcs(k: Task) {
    forall i, j :: 0 <= i < j < |k.t| && k.t[i].state == k.t[j].state ==> SymIn(k, i) <= SymIn(k, j)
  }

  ghost predicate SpeedOK(k: Task, v: Speed) {
    && |k.first| == k.n == |v.numlines| == |v.flagstates|
    && (forall q :: 0 <= q < k.n ==> RowLength(k, q, v.numlines[q]))
    && (forall i :: 0 <= i < |k.t| && HasFlag(k, i) ==> 0 <= k.t[i].state < k.n && v.flagstates[k.t[i].state])
    && (v.binsearch ==> SortedArcs(k))
    && IndexOK(k, v.index) && (!v.indexed ==> v.index == IndexTable(map[], []))
  }

  // The test before apply_binarysearch is used.
  predicate Fast(k: Task, v: Speed, q: int)
    requires 0 <= q < |v.flagstates|
  {
    (v.binsearch && k.flags == map[]) || (v.binsearch && !v.flagstates[q])
  }

  function LastLine(k: Task, v: Speed, q: int): int
    requires 0 <= q < |k.first| && q < |v.numlines|
  {
    var end: int := k.first[q] + v.numlines[q];
    end - 1
  }

  lemma FastRow(k: Task, v: Speed, q: int)
    requires TaskOK(k) && SpeedOK(k, v) && 0 <= q < k.n && Fast(k, v, q)
    ensures LastLine(k, v, q) >= 0 && SortedRow(k, k.first[q], LastLine(k, v, q)) && k.t[k.first[q]].state == q
    ensures LastLine(k, v, q) + 1 < |k.t| ==> k.t[LastLine(k, v, q) + 1].state != q
  {
    var first, last := k.first[q], LastLine(k, v, q);
    assert RowLength(k, q, v.numlines[q]);
    forall i | first <= i <= last
      ensures k.t[i].state == q && SymIn(k, i) !in k.flags && SymIn(k, i) >= -1
              && (SymIn(k, i) == -1 <==> k.t[i].target == -1)
      ensures SymIn(k, i) == -1 ==> first == last {
      assert LineOK(k.t[i], k.n);
      assert k.t[first].state == q == k.t[last].state;
      assert !HasFlag(k, i);
    }
  }

  // A line of the row.
  lemma RowReach(k: Task, v: Speed, q: int, i: nat)
    requires TaskOK(k) && SpeedOK(k, v) && 0 <= q < k.n && InRow(k, q, i) && i < |k.t| && k.t[i].state == q
    ensures k.first[q] <= i <= LastLine(k, v, q)
  {
    assert RowLength(k, q, v.numlines[q]);
  }

  // Nothing after a line with a larger symbol is viable.
  lemma AfterLast(k: Task, first: nat, last: nat, ptr: nat, ipos: nat, seeksym: int)
    requires SortedRow(k, first, last) && first <= ptr <= last && 0 <= seeksym < SymIn(k, ptr)
    requires ipos < |k.word| ==> seeksym == k.sigs[ipos].signumber
    ensures forall i :: ptr < i <= last ==> !Viable(k, ipos, i)
  {
    forall i | ptr < i <= last ensures !Viable(k, ipos, i) {
      ViableIs(k, first, last, ipos, i);
    }
  }

  // apply_create_statemap: the lines of every state.
  method LinesOfStates(k: Task) returns (numlines: seq<nat>)
    requires TaskOK(k)
    ensures |numlines| == k.n && forall q :: 0 <= q < k.n ==> RowLength(k, q, numlines[q])
  {
    hide TaskOK;
    TaskLines(k);
    numlines := seq(k.n, _ => 0);
    for i := 0 to |k.t|
      invariant |numlines| == k.n && forall q :: 0 <= q < k.n ==> Counted(k, q, numlines[q], i)
    {
      forall q | 0 <= q < k.n ensures Counted(k, q, if k.t[i].state == q then numlines[q] + 1 else numlines[q], i + 1) {
        NextCounted(k, q, numlines[q], i);
      }
      numlines := numlines[k.t[i].state := numlines[k.t[i].state] + 1];
    }
    forall q | 0 <= q < k.n ensures RowLength(k, q, numlines[q]) {
      AllCounted(k, q, numlines[q]);
    }
  }

  // The lines of q below i.
  ghost predicate Counted(k: Task, q: int, count: nat, i: nat)
    requires 0 <= q < |k.first| && i <= |k.t|
  {
    && k.first[q] + count <= |k.t| && (i <= k.first[q] ==> count == 0)
    && (i > k.first[q] ==> 0 < count && k.first[q] + count <= i
                           && (forall j :: k.first[q] <= j < k.first[q] + count ==> k.t[j].state == q)
                           && (k.first[q] + count < i ==> k.t[k.first[q] + count].state != q))
  }

  lemma TaskLines(k: Task)
    requires TaskOK(k)
    ensures |k.first| == k.n && forall i :: 0 <= i < |k.t| ==> 0 <= k.t[i].state < k.n
    ensures forall q :: 0 <= q < k.n ==> k.first[q] < |k.t|
  {
    forall i | 0 <= i < |k.t| ensures 0 <= k.t[i].state < k.n {
      assert LineOK(k.t[i], k.n);
    }
  }

  lemma NextCounted(k: Task, q: int, count: nat, i: nat)
    requires TaskOK(k) && 0 <= q < k.n && i < |k.t| && Counted(k, q, count, i)
    ensures Counted(k, q, if k.t[i].state == q then count + 1 else count, i + 1)
  {
    var first := k.first[q];
    assert FirstLine(k, q);
    if first < first + count < i {
      NoGap(k.t, first, first + count, i);
    }
  }

  lemma NoGap(t: seq<Line>, i: nat, j: nat, l: nat)
    requires Grouped(t) && i < j < l < |t|
    ensures t[i].state == t[l].state ==> t[j].state == t[i].state
  {
  }

  lemma AllCounted(k: Task, q: int, count: nat)
    requires TaskOK(k) && 0 <= q < k.n && Counted(k, q, count, |k.t|)
    ensures RowLength(k, q, count)
  {
    assert FirstLine(k, q);
  }

  // apply_mark_flagstates: exactly the states with a flag on an arc.
  method MarkFlagStates(k: Task) returns (flagstates: seq<bool>)
    requires TaskOK(k)
    ensures |flagstates| == k.n && forall q :: 0 <= q < k.n ==>
                                                 (flagstates[q] <==> exists i :: 0 <= i < |k.t| && k.t[i].state == q
                                                                                 && HasFlag(k, i))
  {
    hide TaskOK;
    TaskLines(k);
    flagstates := seq(k.n, _ => false);
    for i := 0 to |k.t|
      invariant |flagstates| == k.n
      invariant forall q :: 0 <= q < k.n ==> (flagstates[q] <==> exists j :: 0 <= j < i && k.t[j].state == q
                                                                             && HasFlag(k, j))
    {
      if k.t[i].target != -1 && (k.t[i].inp in k.flags || k.t[i].outp in k.flags) {
        assert HasFlag(k, i);
        flagstates := flagstates[k.t[i].state := true];
      }
    }
  }
}
