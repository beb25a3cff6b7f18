// The second half of fsm_merge_sigma (constructions.c): lines with ? or @ also
// get lines for the symbols that were unknown to their net, and are known now.

module Expansion {
  import opened Nets
  import opened MergeSigma

  // A symbol that came from the other alphabet alone (its presence is other).
  ghost predicate IsNew(ms: seq<MSym>, other: int, c: int) {
    exists k :: 0 <= k < |ms| && NewAt(ms, other, k) && ms[k].number == c
  }

  predicate NewAt(ms: seq<MSym>, other: int, k: int)
    requires 0 <= k < |ms|
  {
    ms[k].presence == other && ms[k].number > IDENTITY
  }

  // The letters that replace l; l itself stays.
  ghost predicate ExpandsTo(ms: seq<MSym>, other: int, l: Letter, l': Letter) {
    || l' == l
    || (l.inp == IDENTITY && l'.inp == l'.outp && IsNew(ms, other, l'.inp))
    || (l.inp == UNKNOWN && l.outp != UNKNOWN && l'.outp == l.outp && IsNew(ms, other, l'.inp))
    || (l.inp != UNKNOWN && l.outp == UNKNOWN && l'.inp == l.inp && IsNew(ms, other, l'.outp))
    || (l.inp == l.outp == UNKNOWN && PairOK(ms, other, l'))
  }

  // ?:new, new:? and pairs of different new symbols.
  ghost predicate PairOK(ms: seq<MSym>, other: int, l: Letter) {
    && l.inp != l.outp && (l.inp == UNKNOWN || IsNew(ms, other, l.inp))
       && (l.outp == UNKNOWN || IsNew(ms, other, l.outp))
  }

  function With(l: Line, inp: int, outp: int): Line {
    l.(inp := inp, outp := outp)
  }

  ghost function LetterOf(l: Line): Letter {
    Letter(l.inp, l.outp)
  }

  // ---- Counting ----

  // net_unk counts all symbols of the other alphabet alone, special or not.
  function Foreign(ms: seq<MSym>, other: int, k: nat): nat
    requires k <= |ms|
  {
    if k == 0 then 0 else Foreign(ms, other, k - 1) + (if ms[k - 1].presence == other then 1 else 0)
  }

  ghost function NewCount(ms: seq<MSym>, other: int, k: nat): nat
    requires k <= |ms|
  {
    if k == 0 then 0 else NewCount(ms, other, k - 1) + (if NewAt(ms, other, k - 1) then 1 else 0)
  }

  ghost function UnknownCount(ms: seq<MSym>, k: nat): nat
    requires k <= |ms|
  {
    if k == 0 then 0 else UnknownCount(ms, k - 1) + (if ms[k - 1].number == UNKNOWN then 1 else 0)
  }

  lemma {:induction false} CountsGrow(ms: seq<MSym>, other: int, k: nat)
    requires k <= |ms|
    ensures NewCount(ms, other, k) <= Foreign(ms, other, k)
    ensures NewCount(ms, other, k) <= NewCount(ms, other, |ms|)
    decreases |ms| - k
  {
    NewIsForeign(ms, other, k);
    if k < |ms| {
      CountsGrow(ms, other, k + 1);
    }
  }

  lemma {:induction false} NewIsForeign(ms: seq<MSym>, other: int, k: nat)
    requires k <= |ms|
    ensures NewCount(ms, other, k) <= Foreign(ms, other, k)
  {
    if k > 0 {
      NewIsForeign(ms, other, k - 1);
    }
  }

  lemma {:induction false} OneUnknown(ms: seq<MSym>, k: nat)
    requires Dense(ms) && k <= |ms|
    ensures UnknownCount(ms, k) <= 1 && (k < |ms| && ms[k].number <= UNKNOWN ==> UnknownCount(ms, k) == 0)
  {
    if k > 0 {
      OneUnknown(ms, k - 1);
    }
  }

  // The lines set aside for a line.
  function Adds(l: Line, unk: nat): nat {
    (if l.inp == IDENTITY then unk else 0)
    + (if l.inp == UNKNOWN && l.outp != UNKNOWN then unk else 0)
    + (if l.outp == UNKNOWN && l.inp != UNKNOWN then unk else 0)
    + (if l.inp == UNKNOWN && l.outp == UNKNOWN then unk * unk + unk else 0)
  }

  function Budget(t: seq<Line>, unk: nat, i: nat): nat
    requires i <= |t|
  {
    if i == 0 then 0 else Budget(t, unk, i - 1) + 1 + Adds(t[i - 1], unk)
  }

  lemma {:induction false} BudgetGrows(t: seq<Line>, unk: nat, i: nat)
    requires i <= |t|
    ensures Budget(t, unk, i) <= Budget(t, unk, |t|)
    decreases |t| - i
  {
    if i < |t| {
      BudgetGrows(t, unk, i + 1);
    }
  }

  // ---- One line ----

  // out[j0..j] are variants of l, for exactly the letters of good.
  ghost predicate Wrote(out: seq<Line>, j0: nat, j: nat, l: Line, good: iset<Letter>) {
    && j0 <= j <= |out|
    && (forall k :: j0 <= k < j ==> out[k] == With(l, out[k].inp, out[k].outp) && LetterOf(out[k]) in good)
    && (forall l' :: l' in good ==> Among(out, j0, j, With(l, l'.inp, l'.outp)))
    && (forall i, k :: j0 <= i < k < j ==> out[i] != out[k])
  }

  ghost predicate Among(out: seq<Line>, j0: nat, j: nat, l: Line) {
    exists k :: j0 <= k < j <= |out| && out[k] == l
  }

  // One more letter is written.
  lemma WroteMore(out: seq<Line>, j0: nat, j: nat, l: Line, good: iset<Letter>, out': seq<Line>, l': Letter)
    requires Wrote(out, j0, j, l, good) && j < |out| == |out'| && out' == out[j := With(l, l'.inp, l'.outp)]
             && l' !in good
    ensures Wrote(out', j0, j + 1, l, good + iset{l'})
  {
    forall k | k in good + iset{l'} ensures Among(out', j0, j + 1, With(l, k.inp, k.outp)) {
      if k in good {
        assert Among(out, j0, j, With(l, k.inp, k.outp));
        var i :| j0 <= i < j && out[i] == With(l, k.inp, k.outp);
        assert out'[i] == out[i];
      } else {
        assert out'[j] == With(l, k.inp, k.outp);
      }
    }
  }

  lemma WroteSame(out: seq<Line>, j0: nat, j: nat, l: Line, good: iset<Letter>, good': iset<Letter>)
    requires Wrote(out, j0, j, l, good) && forall k :: k in good <==> k in good'
    ensures Wrote(out, j0, j, l, good')
  {
    assert good == good';
  }

  // How a letter is made from a new symbol.
  datatype Shape = Twice | Input | Output

  function Shaped(shape: Shape, l: Line, c: int): Letter {
    match shape
    case Twice => Letter(c, c)
    case Input => Letter(c, l.outp)
    case Output => Letter(l.inp, c)
  }

  ghost predicate ShapeIn(ms: seq<MSym>, other: int, shape: Shape, l: Line, k: nat, l': Letter)
    requires k <= |ms|
  {
    l' == LetterOf(l) || exists i :: 0 <= i < k && NewAt(ms, other, i) && l' == Shaped(shape, l, ms[i].number)
  }

  // The letters made from the new symbols below k, and l itself.
  ghost function Shapes(ms: seq<MSym>, other: int, shape: Shape, l: Line, k: nat): iset<Letter>
    requires k <= |ms|
  {
    iset l' | ShapeIn(ms, other, shape, l, k, l')
  }

  method WriteShapes(out: array<Line>, j0: nat, l: Line, ms: seq<MSym>, other: int, shape: Shape, ghost limit: nat)
    returns (j: nat)
    requires j0 + 1 + NewCount(ms, other, |ms|) <= limit <= out.Length && Dense(ms)
    requires if shape == Output then l.outp <= IDENTITY else l.inp <= IDENTITY
    modifies out
    ensures j0 < j <= limit && Wrote(out[..], j0, j, l, Shapes(ms, other, shape, l, |ms|))
    ensures forall k :: 0 <= k < out.Length && !(j0 <= k < j) ==> out[k] == old(out[k])
  {
    hide Wrote;
    WroteNothing(out[..], j0, l);
    WroteMore(out[..], j0, j0, l, iset{}, out[..][j0 := With(l, l.inp, l.outp)], LetterOf(l));
    out[j0] := l;
    j := j0 + 1;
    assert l == With(l, l.inp, l.outp);
    ShapesStart(ms, other, shape, l);
    for k := 0 to |ms|
      invariant j == j0 + 1 + NewCount(ms, other, k) && Wrote(out[..], j0, j, l, Shapes(ms, other, shape, l, k))
      invariant forall i :: 0 <= i < out.Length && !(j0 <= i < j) ==> out[i] == old(out[i])
    {
      CountsGrow(ms, other, k + 1);
      ShapesNext(ms, other, shape, l, k);
      if ms[k].presence == other && ms[k].number > IDENTITY {
        var l' := Shaped(shape, l, ms[k].number);
        ghost var before := out[..];
        ShapeIsNew(ms, other, shape, l, k);
        WroteMore(before, j0, j, l, Shapes(ms, other, shape, l, k), before[j := With(l, l'.inp, l'.outp)], l');
        out[j] := With(l, l'.inp, l'.outp);
        assert out[..] == before[j := With(l, l'.inp, l'.outp)];
        j := j + 1;
      }
    }
  }

  lemma ShapeIsNew(ms: seq<MSym>, other: int, shape: Shape, l: Line, k: nat)
    requires Dense(ms) && k < |ms| && NewAt(ms, other, k)
             && if shape == Output then l.outp <= IDENTITY else l.inp <= IDENTITY
    ensures Shaped(shape, l, ms[k].number) !in Shapes(ms, other, shape, l, k)
  {
  }

  lemma PairIsNew(ms: seq<MSym>, other: int, l: Line, rows: nat, k: nat)
    requires Dense(ms) && rows < |ms| && k < |ms| && Crossed(ms, other, k, rows) && l.inp == l.outp
    ensures Letter(ms[k].number, ms[rows].number) !in Pairs(ms, other, l, rows, k)
  {
  }

  lemma WroteNothing(out: seq<Line>, j0: nat, l: Line)
    requires j0 <= |out|
    ensures Wrote(out, j0, j0, l, iset{})
  {
  }

  lemma ShapesStart(ms: seq<MSym>, other: int, shape: Shape, l: Line)
    ensures Shapes(ms, other, shape, l, 0) == iset{} + iset{LetterOf(l)}
  {
  }

  lemma ShapesNext(ms: seq<MSym>, other: int, shape: Shape, l: Line, k: nat)
    requires k < |ms|
    ensures NewAt(ms, other, k) ==> Shapes(ms, other, shape, l, k + 1) == Shapes(ms, other, shape, l, k)
                                    + iset{Shaped(shape, l, ms[k].number)}
    ensures !NewAt(ms, other, k) ==> Shapes(ms, other, shape, l, k + 1) == Shapes(ms, other, shape, l, k)
  {
    var c := Shaped(shape, l, ms[k].number);
    forall l' ensures ShapeIn(ms, other, shape, l, k + 1, l') <==> ShapeIn(ms, other, shape, l, k, l')
                                                                   || (NewAt(ms, other, k) && l' == c) {
      if ShapeIn(ms, other, shape, l, k + 1, l') && l' != LetterOf(l) {
        var i :| 0 <= i < k + 1 && NewAt(ms, other, i) && l' == Shaped(shape, l, ms[i].number);
      }
    }
  }

  // ---- ?:? ----

  predicate Crossed(ms: seq<MSym>, other: int, a: int, b: int)
    requires 0 <= a < |ms| && 0 <= b < |ms|
  {
    && ((NewAt(ms, other, a) && NewAt(ms, other, b)) || (ms[a].number == UNKNOWN && NewAt(ms, other, b))
        || (ms[b].number == UNKNOWN && NewAt(ms, other, a)))
    && ms[a].number != ms[b].number
  }

  ghost predicate PairIn(ms: seq<MSym>, other: int, l: Line, rows: nat, k: nat, l': Letter) {
    l' == LetterOf(l) ||
    exists a, b :: 0 <= a < |ms| && 0 <= b < |ms| && (b < rows || (b == rows && a < k)) && Crossed(ms, other, a, b)
                   && l' == Letter(ms[a].number, ms[b].number)
  }

  // The pairs of the rows before, and of this row those below k.
  ghost function Pairs(ms: seq<MSym>, other: int, l: Line, rows: nat, k: nat): iset<Letter> {
    iset l' | PairIn(ms, other, l, rows, k, l')
  }

  lemma PairsNext(ms: seq<MSym>, other: int, l: Line, rows: nat, k: nat)
    requires rows < |ms| && k < |ms|
    ensures Crossed(ms, other, k, rows) ==>
              Pairs(ms, other, l, rows, k + 1) == Pairs(ms, other, l, rows, k)
                  + iset{Letter(ms[k].number, ms[rows].number)}
    ensures !Crossed(ms, other, k, rows) ==> Pairs(ms, other, l, rows, k + 1) == Pairs(ms, other, l, rows, k)
  {
    hide Crossed;
    var c := Letter(ms[k].number, ms[rows].number);
    forall l' ensures PairIn(ms, other, l, rows, k + 1, l') <==> PairIn(ms, other, l, rows, k, l')
                                                                 || (Crossed(ms, other, k, rows) && l' == c) {
      if PairIn(ms, other, l, rows, k + 1, l') && l' != LetterOf(l) {
        var a, b :| 0 <= a < |ms| && 0 <= b < |ms| && (b < rows || (b == rows && a < k + 1)) && Crossed(ms, other, a, b)
                    && l' == Letter(ms[a].number, ms[b].number);
      }
      if PairIn(ms, other, l, rows, k, l') && l' != LetterOf(l) {
        var a, b :| 0 <= a < |ms| && 0 <= b < |ms| && (b < rows || (b == rows && a < k)) && Crossed(ms, other, a, b)
                    && l' == Letter(ms[a].number, ms[b].number);
      }
    }
  }

  lemma PairsRow(ms: seq<MSym>, other: int, l: Line, rows: nat)
    ensures Pairs(ms, other, l, rows + 1, 0) == Pairs(ms, other, l, rows, |ms|)
  {
    hide Crossed;
    forall l' ensures PairIn(ms, other, l, rows + 1, 0, l') <==> PairIn(ms, other, l, rows, |ms|, l') {
      if PairIn(ms, other, l, rows + 1, 0, l') && l' != LetterOf(l) {
        var a, b :| 0 <= a < |ms| && 0 <= b < |ms| && (b < rows + 1 || (b == rows + 1 && a < 0))
                    && Crossed(ms, other, a, b) && l' == Letter(ms[a].number, ms[b].number);
      }
      if PairIn(ms, other, l, rows, |ms|, l') && l' != LetterOf(l) {
        var a, b :| 0 <= a < |ms| && 0 <= b < |ms| && (b < rows || (b == rows && a < |ms|)) && Crossed(ms, other, a, b)
                    && l' == Letter(ms[a].number, ms[b].number);
      }
    }
  }

  lemma PairsStart(ms: seq<MSym>, other: int, l: Line)
    ensures Pairs(ms, other, l, 0, 0) == iset{} + iset{LetterOf(l)}
  {
  }

  // How many pairs a row has below k.
  ghost function RowCount(ms: seq<MSym>, other: int, row: nat, k: nat): int
    requires row < |ms| && k <= |ms|
  {
    if k == 0 then 0 else RowCount(ms, other, row, k - 1) + (if Crossed(ms, other, k - 1, row) then 1 else 0)
  }

  lemma {:induction false} RowExact(ms: seq<MSym>, other: int, row: nat, k: nat)
    requires Dense(ms) && row < |ms| && k <= |ms|
    ensures RowCount(ms, other, row, k) ==
              if NewAt(ms, other, row) then NewCount(ms, other, k) - (if row < k then 1 else 0) + UnknownCount(ms, k)
              else if ms[row].number == UNKNOWN then NewCount(ms, other, k) else 0
    ensures NewAt(ms, other, row) && k > row ==> NewCount(ms, other, k) >= 1
  {
    if k > 0 {
      RowExact(ms, other, row, k - 1);
    }
  }

  // A row has no more pairs than there are new symbols; most rows have none.
  lemma RowBound(ms: seq<MSym>, other: int, row: nat, k: nat)
    requires Dense(ms) && row < |ms| && k <= |ms|
    ensures 0 <= Rows(ms, other, row + 1) - Rows(ms, other, row) <= 1
    ensures RowCount(ms, other, row, k) <= if Rows(ms, other, row + 1) == Rows(ms, other, row)
            then 0 else NewCount(ms, other, |ms|)
  {
    RowExact(ms, other, row, k);
    OneUnknown(ms, k);
    CountsGrow(ms, other, k);
    CountsGrow(ms, other, row + 1);
    if NewAt(ms, other, row) && k <= row {
      NewBefore(ms, other, k, row + 1);
    }
  }

  lemma {:induction false} NewBefore(ms: seq<MSym>, other: int, k: nat, m: nat)
    requires k < m <= |ms| && NewAt(ms, other, m - 1)
    ensures NewCount(ms, other, k) < NewCount(ms, other, m)
  {
    CountUp(ms, other, k, m - 1);
  }

  lemma {:induction false} CountUp(ms: seq<MSym>, other: int, k: nat, m: nat)
    requires k <= m <= |ms|
    ensures NewCount(ms, other, k) <= NewCount(ms, other, m)
    decreases m
  {
    if k < m {
      CountUp(ms, other, k, m - 1);
    }
  }

  ghost function Rows(ms: seq<MSym>, other: int, k: nat): int
    requires k <= |ms|
  {
    NewCount(ms, other, k) + UnknownCount(ms, k)
  }

  // The space for all pairs.
  lemma PairSpace(ms: seq<MSym>, other: int, row: nat)
    requires Dense(ms) && row <= |ms|
    ensures var u := NewCount(ms, other, |ms|); Rows(ms, other, row) * u <= u * u + u
  {
    var u := NewCount(ms, other, |ms|);
    OneUnknown(ms, row);
    CountsGrow(ms, other, row);
    assert Rows(ms, other, row) <= u + 1;
    hide *;
    MulUp(Rows(ms, other, row), u + 1, u);
    OneMoreTimes(u);
  }

  lemma OneMoreTimes(u: nat)
    ensures (u + 1) * u == u * u + u
  {
  }

  lemma Distribute(a: int, b: int, c: int)
    ensures b * c == a * c + (b - a) * c
  {
  }

  lemma MulUp(a: int, b: int, c: nat)
    requires a <= b
    ensures a * c <= b * c
  {
  }

  method WritePairs(out: array<Line>, j0: nat, l: Line, ms: seq<MSym>, other: int, ghost limit: nat) returns (j: nat)
    requires Dense(ms) && j0 + 1 + NewCount(ms, other, |ms|) * NewCount(ms, other, |ms|)
             + NewCount(ms, other, |ms|) <= limit <= out.Length
    requires l.inp == l.outp
    modifies out
    ensures j0 < j <= limit && Wrote(out[..], j0, j, l, Pairs(ms, other, l, |ms|, 0))
    ensures forall k :: 0 <= k < out.Length && !(j0 <= k < j) ==> out[k] == old(out[k])
  {
    hide Wrote, Dense, Rows, NewCount, RowCount, Crossed;
    ghost var u := NewCount(ms, other, |ms|);
    WroteNothing(out[..], j0, l);
    WroteMore(out[..], j0, j0, l, iset{}, out[..][j0 := With(l, l.inp, l.outp)], LetterOf(l));
    out[j0] := l;
    j := j0 + 1;
    assert l == With(l, l.inp, l.outp);
    PairsStart(ms, other, l);
    NoRows(ms, other);
    for b := 0 to |ms|
      invariant j0 < j <= j0 + 1 + Rows(ms, other, b) * u && Wrote(out[..], j0, j, l, Pairs(ms, other, l, b, 0))
      invariant forall i :: 0 <= i < out.Length && !(j0 <= i < j) ==> out[i] == old(out[i])
    {
      Distribute(Rows(ms, other, b), Rows(ms, other, b + 1), u);
      PairSpace(ms, other, b + 1);
      ghost var j1 := j;
      NoCount(ms, other, b);
      for a := 0 to |ms|
        invariant j0 < j && j == j1 + RowCount(ms, other, b, a) && Wrote(out[..], j0, j, l, Pairs(ms, other, l, b, a))
        invariant forall i :: 0 <= i < out.Length && !(j0 <= i < j) ==> out[i] == old(out[i])
      {
        RowSpace(ms, other, b, a + 1);
        RowStep(ms, other, b, a);
        PairsNext(ms, other, l, b, a);
        if Crossed(ms, other, a, b) {
          ghost var before := out[..];
          ghost var l' := Letter(ms[a].number, ms[b].number);
          PairIsNew(ms, other, l, b, a);
          WroteMore(before, j0, j, l, Pairs(ms, other, l, b, a), before[j := With(l, l'.inp, l'.outp)], l');
          out[j] := With(l, ms[a].number, ms[b].number);
          assert out[..] == before[j := With(l, l'.inp, l'.outp)];
          j := j + 1;
        }
      }
      RowSpace(ms, other, b, |ms|);
      PairsRow(ms, other, l, b);
    }
    PairSpace(ms, other, |ms|);
  }

  lemma NoRows(ms: seq<MSym>, other: int)
    ensures Rows(ms, other, 0) * NewCount(ms, other, |ms|) == 0
  {
  }

  lemma NoCount(ms: seq<MSym>, other: int, row: nat)
    requires row < |ms|
    ensures RowCount(ms, other, row, 0) == 0
  {
  }

  lemma RowStep(ms: seq<MSym>, other: int, row: nat, k: nat)
    requires row < |ms| && k < |ms|
    ensures RowCount(ms, other, row, k + 1) == RowCount(ms, other, row, k)
            + (if Crossed(ms, other, k, row) then 1 else 0)
  {
  }

  lemma RowSpace(ms: seq<MSym>, other: int, row: nat, k: nat)
    requires Dense(ms) && row < |ms| && k <= |ms|
    ensures RowCount(ms, other, row, k) <= (Rows(ms, other, row + 1) - Rows(ms, other, row)) * NewCount(ms, other, |ms|)
  {
    RowBound(ms, other, row, k);
    var d, u := Rows(ms, other, row + 1) - Rows(ms, other, row), NewCount(ms, other, |ms|);
    hide *;
    ZeroOrOne(d, u);
  }

  lemma ZeroOrOne(d: int, u: nat)
    ensures (d == 0 ==> d * u == 0) && (d == 1 ==> d * u == u)
  {
  }

  // ---- All lines ----

  ghost function Expanded(ms: seq<MSym>, other: int, l: Line): iset<Letter> {
    iset l' | ExpandsTo(ms, other, LetterOf(l), l')
  }

  ghost predicate HasUnknown(ms: seq<MSym>) {
    exists k :: 0 <= k < |ms| && ms[k].number == UNKNOWN
  }

  // A line as nets have them: @ opposite itself, and ? only if the alphabet has it.
  ghost predicate SigmaLine(ms: seq<MSym>, l: Line) {
    && (l.inp == IDENTITY <==> l.outp == IDENTITY) && (l.inp == -1 <==> l.outp == -1) && l.inp >= -1 && l.outp >= -1
    && (l.inp == UNKNOWN || l.outp == UNKNOWN ==> HasUnknown(ms))
  }

  lemma ShapesAre(ms: seq<MSym>, other: int, shape: Shape, l: Line)
    requires shape == Twice ==> l.inp == l.outp == IDENTITY
    requires shape == Input ==> l.inp == UNKNOWN && l.outp != UNKNOWN
    requires shape == Output ==> l.inp != UNKNOWN && l.inp != IDENTITY && l.outp == UNKNOWN
    ensures forall l' :: l' in Shapes(ms, other, shape, l, |ms|) <==> l' in Expanded(ms, other, l)
  {
    forall l' ensures ShapeIn(ms, other, shape, l, |ms|, l') <==> ExpandsTo(ms, other, LetterOf(l), l') {
      if ShapeIn(ms, other, shape, l, |ms|, l') && l' != LetterOf(l) {
        var i :| 0 <= i < |ms| && NewAt(ms, other, i) && l' == Shaped(shape, l, ms[i].number);
        assert IsNew(ms, other, ms[i].number);
      }
      if ExpandsTo(ms, other, LetterOf(l), l') && l' != LetterOf(l) {
        var c := if shape == Output then l'.outp else l'.inp;
        var i :| 0 <= i < |ms| && NewAt(ms, other, i) && ms[i].number == c;
        assert l' == Shaped(shape, l, ms[i].number);
      }
    }
  }

  lemma PairsAre(ms: seq<MSym>, other: int, l: Line)
    requires l.inp == l.outp == UNKNOWN && HasUnknown(ms)
    ensures forall l' :: l' in Pairs(ms, other, l, |ms|, 0) <==> l' in Expanded(ms, other, l)
  {
    forall l' ensures PairIn(ms, other, l, |ms|, 0, l') <==> ExpandsTo(ms, other, LetterOf(l), l') {
      if PairIn(ms, other, l, |ms|, 0, l') && l' != LetterOf(l) {
        var a, b :| 0 <= a < |ms| && 0 <= b < |ms| && (b < |ms| || (b == |ms| && a < 0)) && Crossed(ms, other, a, b)
                    && l' == Letter(ms[a].number, ms[b].number);
        assert NewAt(ms, other, a) ==> IsNew(ms, other, ms[a].number);
        assert NewAt(ms, other, b) ==> IsNew(ms, other, ms[b].number);
      }
      if PairOK(ms, other, l') {
        var a := PlaceOf(ms, other, l'.inp);
        var b := PlaceOf(ms, other, l'.outp);
        assert Crossed(ms, other, a, b);
      }
    }
  }

  lemma PlaceOf(ms: seq<MSym>, other: int, c: int) returns (a: nat)
    requires if c == UNKNOWN then HasUnknown(ms) else IsNew(ms, other, c)
    ensures a < |ms| && ms[a].number == c && (c != UNKNOWN ==> NewAt(ms, other, a))
  {
    if c == UNKNOWN {
      a :| 0 <= a < |ms| && ms[a].number == UNKNOWN;
    } else {
      a :| 0 <= a < |ms| && NewAt(ms, other, a) && ms[a].number == c;
    }
  }

  lemma AloneIs(ms: seq<MSym>, other: int, l: Line)
    requires l.inp != IDENTITY && l.inp != UNKNOWN && l.outp != UNKNOWN
    ensures forall l' :: l' in iset{} + iset{LetterOf(l)} <==> l' in Expanded(ms, other, l)
  {
  }

  // The space for one line.
  lemma LineSpace(ms: seq<MSym>, other: int, l: Line, unk: nat)
    requires unk == Foreign(ms, other, |ms|)
    ensures var u := NewCount(ms, other, |ms|); u <= unk && u * u + u <= unk * unk + unk
  {
    CountsGrow(ms, other, |ms|);
    var u := NewCount(ms, other, |ms|);
    hide NewCount, Foreign;
    MulUp(u, unk, u);
    MulUp(u, unk, unk);
  }

  method WriteLine(out: array<Line>, j0: nat, l: Line, ms: seq<MSym>, other: int, ghost unk: nat) returns (j: nat)
    requires Dense(ms) && SigmaLine(ms, l) && unk == Foreign(ms, other, |ms|) && j0 + 1 + Adds(l, unk) <= out.Length
    modifies out
    ensures j0 < j <= j0 + 1 + Adds(l, unk) && Wrote(out[..], j0, j, l, Expanded(ms, other, l))
    ensures forall k :: 0 <= k < out.Length && !(j0 <= k < j) ==> out[k] == old(out[k])
  {
    hide Wrote, Dense, NewCount, Foreign;
    LineSpace(ms, other, l, unk);
    ghost var limit := j0 + 1 + Adds(l, unk);
    if l.inp == IDENTITY {
      j := WriteShapes(out, j0, l, ms, other, Twice, limit);
      ShapesAre(ms, other, Twice, l);
      WroteSame(out[..], j0, j, l, Shapes(ms, other, Twice, l, |ms|), Expanded(ms, other, l));
    } else if l.inp == UNKNOWN && l.outp != UNKNOWN {
      j := WriteShapes(out, j0, l, ms, other, Input, limit);
      ShapesAre(ms, other, Input, l);
      WroteSame(out[..], j0, j, l, Shapes(ms, other, Input, l, |ms|), Expanded(ms, other, l));
    } else if l.inp != UNKNOWN && l.outp == UNKNOWN {
      j := WriteShapes(out, j0, l, ms, other, Output, limit);
      ShapesAre(ms, other, Output, l);
      WroteSame(out[..], j0, j, l, Shapes(ms, other, Output, l, |ms|), Expanded(ms, other, l));
    } else if l.inp == UNKNOWN && l.outp == UNKNOWN {
      j := WritePairs(out, j0, l, ms, other, limit);
      PairsAre(ms, other, l);
      WroteSame(out[..], j0, j, l, Pairs(ms, other, l, |ms|, 0), Expanded(ms, other, l));
    } else {
      // neither ? nor @, or no arc at all
      WroteNothing(out[..], j0, l);
      WroteMore(out[..], j0, j0, l, iset{}, out[..][j0 := With(l, l.inp, l.outp)], LetterOf(l));
      assert l == With(l, l.inp, l.outp);
      out[j0] := l;
      j := j0 + 1;
      AloneIs(ms, other, l);
      WroteSame(out[..], j0, j, l, iset{} + iset{LetterOf(l)}, Expanded(ms, other, l));
    }
  }

  // u has the lines of t[..i], with all their variants.
  ghost predicate ExpandedTo(u: seq<Line>, t: seq<Line>, i: nat, ms: seq<MSym>, other: int) {
    && i <= |t|
    && (forall k :: 0 <= k < |u| ==> VariantOf(u[k], t, i, ms, other))
    && (forall a, l' :: 0 <= a < i && ExpandsTo(ms, other, LetterOf(t[a]), l') ==> With(t[a], l'.inp, l'.outp) in u)
  }

  ghost predicate VariantOf(l: Line, t: seq<Line>, i: nat, ms: seq<MSym>, other: int)
    requires i <= |t|
  {
    exists a :: 0 <= a < i && l == With(t[a], l.inp, l.outp) && ExpandsTo(ms, other, LetterOf(t[a]), LetterOf(l))
  }

  lemma NextExpanded(u: seq<Line>, t: seq<Line>, i: nat, ms: seq<MSym>, other: int, u': seq<Line>, j: nat, j': nat)
    requires ExpandedTo(u, t, i, ms, other) && i < |t| && |u| == j <= j' <= |u'| && u'[..j] == u
    requires Wrote(u', j, j', t[i], Expanded(ms, other, t[i]))
    ensures ExpandedTo(u'[..j'], t, i + 1, ms, other)
  {
    hide ExpandsTo;
    var v := u'[..j'];
    forall k | 0 <= k < |v| ensures VariantOf(v[k], t, i + 1, ms, other) {
      if k < j {
        assert v[k] == u'[..j][k] == u[k];
        assert VariantOf(u[k], t, i, ms, other);
        var a :| 0 <= a < i && u[k] == With(t[a], u[k].inp, u[k].outp)
                 && ExpandsTo(ms, other, LetterOf(t[a]), LetterOf(u[k]));
      } else {
        assert u'[k] == With(t[i], u'[k].inp, u'[k].outp) && LetterOf(u'[k]) in Expanded(ms, other, t[i]);
      }
    }
    forall a, l' | 0 <= a < i + 1 && ExpandsTo(ms, other, LetterOf(t[a]), l') ensures With(t[a], l'.inp, l'.outp) in v {
      if a < i {
        var k :| 0 <= k < |u| && u[k] == With(t[a], l'.inp, l'.outp);
        assert v[k] == u'[..j][k];
      } else {
        assert l' in Expanded(ms, other, t[i]);
        assert Among(u', j, j', With(t[i], l'.inp, l'.outp));
        var k :| j <= k < j' && u'[k] == With(t[i], l'.inp, l'.outp);
        assert v[k] == u'[k];
      }
    }
  }

  // Line k of u is a variant of line from[k] of t; the order is kept, a line
  // without an arc stands alone, and no variant comes twice.
  ghost predicate Unfolds(u: seq<Line>, t: seq<Line>, from: seq<nat>, ms: seq<MSym>, other: int) {
    && |from| == |u|
    && (forall k :: 0 <= k < |u| ==> from[k] < |t| && VariantAs(u[k], t[from[k]], ms, other))
    && (forall j, k :: 0 <= j < k < |u| ==> from[j] <= from[k]
                                            && (from[j] == from[k] ==> t[from[k]].inp != -1 && u[j] != u[k]))
  }

  ghost predicate VariantAs(o: Line, l: Line, ms: seq<MSym>, other: int) {
    o == With(l, o.inp, o.outp) && ExpandsTo(ms, other, LetterOf(l), LetterOf(o))
  }

  lemma NextUnfolds(u: seq<Line>, t: seq<Line>, i: nat, from: seq<nat>, ms: seq<MSym>, other: int, u': seq<Line>,
                    j': nat, from': seq<nat>)
    requires i < |t| && Unfolds(u, t[..i], from, ms, other) && |u| < j' <= |u'| && u'[..|u|] == u
    requires Wrote(u', |u|, j', t[i], Expanded(ms, other, t[i])) && (t[i].inp == -1 ==> j' == |u| + 1)
    requires from' == from + seq(j' - |u|, _ => i)
    ensures Unfolds(u'[..j'], t[..i + 1], from', ms, other) && i in from' && forall a :: a in from ==> a in from'
  {
    hide ExpandsTo;
    var v := u'[..j'];
    assert forall k :: 0 <= k < |u| ==> v[k] == u'[..|u|][k] && from'[k] == from[k];
    forall k | 0 <= k < |v| ensures from'[k] < i + 1 && VariantAs(v[k], t[..i + 1][from'[k]], ms, other) {
      if k < |u| {
        assert VariantAs(u[k], t[..i][from[k]], ms, other);
      }
    }
    assert from'[|u|] == i;
    forall a | a in from ensures a in from' {
      var k :| 0 <= k < |from| && from[k] == a;
      assert from'[k] == a;
    }
  }

  // "Expand net 1" (other is 2) and "Expand net 2" (other is 1).
  method Expand(t: seq<Line>, ms: seq<MSym>, other: int) returns (out: array<Line>, lines: nat, ghost from: seq<nat>)
    requires Dense(ms) && forall i :: 0 <= i < |t| ==> SigmaLine(ms, t[i])
    ensures fresh(out) && lines < out.Length && out[lines] == SENTINEL && ExpandedTo(out[..lines], t, |t|, ms, other)
    ensures Unfolds(out[..lines], t, from, ms, other) && forall a :: 0 <= a < |t| ==> a in from
  {
    hide Dense, Wrote, ExpandsTo, Adds, Foreign, Unfolds, ExpandedTo;
    NothingExpanded(t, ms, other);
    var unk := 0;
    NoForeign(ms, other);
    for k := 0 to |ms|
      invariant unk == Foreign(ms, other, k)
    {
      ForeignNext(ms, other, k);
      if ms[k].presence == other {
        unk := unk + 1;
      }
    }
    var size := 0;
    for i := 0 to |t|
      invariant size == Budget(t, unk, i)
    {
      size := size + 1 + Adds(t[i], unk);
    }
    out := new Line[size + 1](_ => SENTINEL);
    var j := 0;
    from := [];
    for i := 0 to |t|
      invariant out.Length == size + 1 && j <= size && j <= Budget(t, unk, i)
      invariant ExpandedTo(out[..j], t, i, ms, other)
      invariant Unfolds(out[..j], t[..i], from, ms, other) && forall a :: 0 <= a < i ==> a in from
    {
      BudgetGrows(t, unk, i + 1);
      ghost var u, j0 := out[..j], j;
      j := WriteLine(out, j, t[i], ms, other, unk);
      assert out[..][..j0] == u;
      NextExpanded(u, t, i, ms, other, out[..], j0, j);
      ghost var from' := from + seq(j - j0, _ => i);
      AddsNothing(t[i], unk);
      NextUnfolds(u, t, i, from, ms, other, out[..], j, from');
      from := from';
      assert out[..][..j] == out[..j];
    }
    ghost var u := out[..j];
    out[j] := SENTINEL;
    assert out[..j] == u;
    assert t[..|t|] == t;
    lines := j;
  }

  lemma NothingExpanded(t: seq<Line>, ms: seq<MSym>, other: int)
    ensures ExpandedTo([], t, 0, ms, other) && Unfolds([], t[..0], [], ms, other)
  {
  }

  lemma AddsNothing(l: Line, unk: nat)
    requires l.inp == -1 ==> l.outp == -1
    ensures l.inp == -1 ==> Adds(l, unk) == 0
  {
  }

  lemma NoForeign(ms: seq<MSym>, other: int)
    ensures Foreign(ms, other, 0) == 0
  {
  }

  lemma ForeignNext(ms: seq<MSym>, other: int, k: nat)
    requires k < |ms|
    ensures Foreign(ms, other, k + 1) == Foreign(ms, other, k) + (if ms[k].presence == other then 1 else 0)
  {
  }
}
